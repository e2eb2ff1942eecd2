/**
 What every well-formed fee-distribution state satisfies, and that each operation keeps it:
 under the invariant no guard of the operations fires.
 */
module FeeInvariant {
  import opened Bytes
  import opened DecCoins
  import opened StakingTypes
  import opened FeeDistribution

  /** Starting infos of v's delegations that refer to period p. */
  ghost function InfoRefs(infos: map<(Addr, Addr), Info>, dels: seq<Delegation>, v: Addr, p: nat): nat
    decreases |dels|
  {
    if dels == [] then 0
    else
      var last := dels[|dels| - 1];
      InfoRefs(infos, dels[..|dels| - 1], v, p) +
      if last.validator == v && (v, last.delegator) in infos && infos[(v, last.delegator)].previous == p then 1 else 0
  }

  ghost function SlashRefs(events: seq<Slash>, p: nat): nat
    decreases |events|
  {
    if events == [] then 0 else (if events[0].period == p then 1 else 0) + SlashRefs(events[1..], p)
  }

  /** The references to period p of v: delegations that start there, slash events, and being the last period. */
  ghost function Refs(s: State, dels: seq<Delegation>, v: Addr, p: nat): nat
  {
    InfoRefs(s.infos, dels, v, p) + SlashRefs(SlashesOf(s, v), p) + if CurrentOf(s, v).period == p + 1 then 1 else 0
  }

  ghost predicate Counted(s: State, dels: seq<Delegation>, v: Addr)
  {
    && (forall p: nat :: RecordOf(s, v, p).refs == Refs(s, dels, v, p))
    && (forall p: nat :: (v, p) in s.history ==> s.history[(v, p)].refs > 0)
  }

  /** Everything that refers to a period of v refers to one that has ended. */
  ghost predicate Ended(s: State, v: Addr)
  {
    && CurrentOf(s, v).period > 0
    && (forall p: nat :: (v, p) in s.history ==> p < CurrentOf(s, v).period)
    && (forall d: Addr :: (v, d) in s.infos ==> s.infos[(v, d)].previous < CurrentOf(s, v).period)
    && (forall e :: e in SlashesOf(s, v) ==> e.period < CurrentOf(s, v).period)
  }

  /** Cumulative ratios never decrease. */
  ghost predicate Growing(s: State, v: Addr)
  {
    forall p: nat, q: nat :: p <= q && (v, p) in s.history && (v, q) in s.history ==>
      Covers(s.history[(v, q)].ratio, s.history[(v, p)].ratio)
  }

  /** The stake left after the slash events is no more than the delegation owns, up to the margin of error. */
  ghost predicate StakeSound(from: nat, stake: nat, events: seq<Slash>, low: nat, high: nat, owned: nat)
    decreases |events|
  {
    if events == [] then stake <= owned + MARGIN
    else
      var e := events[0];
      if Splits(e, from, low, high) then StakeSound(e.period, AfterSlash(stake, e), events[1..], low, high, owned)
      else StakeSound(from, stake, events[1..], low, high, owned)
  }

  ghost predicate DelegationSound(s: State, stake: Stake, del: Delegation, height: nat)
  {
    && stake.shares > 0
    && ((del.validator, del.delegator) in s.infos ==>
          var info := s.infos[(del.validator, del.delegator)];
          info.height == height ||
          StakeSound(info.previous, info.stake, SlashesOf(s, del.validator), info.height, height,
            StakeRounded(del.shares, stake)))
  }

  ghost predicate ValidatorOk(s: State, stake: Stake, dels: seq<Delegation>, v: Addr, height: nat)
  {
    && Counted(s, dels, v)
    && Ended(s, v)
    && Growing(s, v)
    && Covers(OutstandingOf(s, v), CurrentOf(s, v).rewards)
    && (forall i {:trigger DelegationSound(s, stake, dels[i], height)} ::
          0 <= i < |dels| && dels[i].validator == v ==> DelegationSound(s, stake, dels[i], height))
  }

  /** The invariant, for the chain at `height`. */
  ghost predicate WellFormed(s: State, stakes: map<Key, Stake>, dels: seq<Delegation>, height: nat)
  {
    && Distinct(dels)
    && forall v: Addr {:trigger ValidatorOk(s, stakes[ValidatorKey(v)], dels, v, height)} ::
         ValidatorKey(v) in stakes ==> ValidatorOk(s, stakes[ValidatorKey(v)], dels, v, height)
  }

  // ---- Reference counts ----

  lemma {:induction false} InfoRefsElsewhere(a: map<(Addr, Addr), Info>, b: map<(Addr, Addr), Info>,
      dels: seq<Delegation>, v: Addr, p: nat)
    requires forall i :: 0 <= i < |dels| && dels[i].validator == v ==>
      ((v, dels[i].delegator) in a <==> (v, dels[i].delegator) in b) &&
      ((v, dels[i].delegator) in a ==> a[(v, dels[i].delegator)] == b[(v, dels[i].delegator)])
    ensures InfoRefs(a, dels, v, p) == InfoRefs(b, dels, v, p)
    decreases |dels|
  {
    if dels != [] {
      InfoRefsElsewhere(a, b, dels[..|dels| - 1], v, p);
    }
  }

  /** The reference that one starting info contributes. */
  ghost function InfoRef(infos: map<(Addr, Addr), Info>, v: Addr, d: Addr, p: nat): nat
  {
    if (v, d) in infos && infos[(v, d)].previous == p then 1 else 0
  }

  /** Changing the info of one delegation changes the count by the difference of its own contribution. */
  lemma {:induction false} InfoRefsChange(a: map<(Addr, Addr), Info>, b: map<(Addr, Addr), Info>, dels: seq<Delegation>,
      k: nat, p: nat)
    requires Distinct(dels) && k < |dels|
    requires var v, d := dels[k].validator, dels[k].delegator;
      b - {(v, d)} == a - {(v, d)}
    ensures var v, d := dels[k].validator, dels[k].delegator;
      InfoRefs(b, dels, v, p) + InfoRef(a, v, d, p) == InfoRefs(a, dels, v, p) + InfoRef(b, v, d, p)
    decreases |dels|
  {
    var v, d := dels[k].validator, dels[k].delegator;
    var n := |dels| - 1;
    var front := dels[..n];
    forall x: (Addr, Addr) | x != (v, d) ensures (x in a <==> x in b) && (x in a ==> a[x] == b[x]) {
      assert x in a <==> x in a - {(v, d)};
      assert x in b <==> x in b - {(v, d)};
      if x in a { assert a[x] == (a - {(v, d)})[x] == (b - {(v, d)})[x] == b[x]; }
    }
    if k == n {
      InfoRefsElsewhere(a, b, front, v, p);
    } else {
      assert front[k] == dels[k];
      InfoRefsChange(a, b, front, k, p);
    }
  }

  lemma {:induction false} InfoRefsHas(infos: map<(Addr, Addr), Info>, dels: seq<Delegation>, k: nat, p: nat)
    requires k < |dels|
    ensures InfoRefs(infos, dels, dels[k].validator, p) >= InfoRef(infos, dels[k].validator, dels[k].delegator, p)
    decreases |dels|
  {
    var n := |dels| - 1;
    if k < n {
      assert dels[..n][k] == dels[k];
      InfoRefsHas(infos, dels[..n], k, p);
    }
  }

  lemma {:induction false} SlashRefsHas(events: seq<Slash>, e: Slash)
    requires e in events
    ensures SlashRefs(events, e.period) > 0
    decreases |events|
  {
    if events[0] != e {
      SlashRefsHas(events[1..], e);
    }
  }

  // ---- Frames ----

  ghost predicate SameHistory(a: map<(Addr, nat), Record>, b: map<(Addr, nat), Record>, v: Addr)
  {
    forall p: nat :: ((v, p) in a <==> (v, p) in b) && ((v, p) in a ==> a[(v, p)] == b[(v, p)])
  }

  ghost predicate SameInfos(a: map<(Addr, Addr), Info>, b: map<(Addr, Addr), Info>, v: Addr)
  {
    forall d: Addr :: ((v, d) in a <==> (v, d) in b) && ((v, d) in a ==> a[(v, d)] == b[(v, d)])
  }

  /** Nothing that concerns v differs, the whole coins of the module and the pool aside. */
  ghost predicate SameFor(s: State, t: State, v: Addr)
  {
    && CurrentOf(s, v) == CurrentOf(t, v)
    && SlashesOf(s, v) == SlashesOf(t, v)
    && OutstandingOf(s, v) == OutstandingOf(t, v)
    && CommissionOf(s, v) == CommissionOf(t, v)
    && SameHistory(s.history, t.history, v)
    && SameInfos(s.infos, t.infos, v)
  }

  lemma SameRecord(s: State, t: State, v: Addr, p: nat)
    requires SameFor(s, t, v)
    ensures RecordOf(s, v, p) == RecordOf(t, v, p)
  {
    assert (v, p) in s.history <==> (v, p) in t.history;
  }

  lemma OkElsewhere(s: State, t: State, stake: Stake, dels: seq<Delegation>, v: Addr, height: nat)
    requires ValidatorOk(s, stake, dels, v, height) && SameFor(s, t, v)
    ensures ValidatorOk(t, stake, dels, v, height)
  {
    forall p: nat ensures RecordOf(t, v, p).refs == Refs(t, dels, v, p) {
      SameRecord(s, t, v, p);
      InfoRefsElsewhere(s.infos, t.infos, dels, v, p);
      assert RecordOf(s, v, p).refs == Refs(s, dels, v, p);
    }
    forall i | 0 <= i < |dels| && dels[i].validator == v ensures DelegationSound(t, stake, dels[i], height) {
      assert DelegationSound(s, stake, dels[i], height);
    }
  }

  // ---- IncrementPeriod ----

  lemma LastPeriodIsCounted(s: State, stake: Stake, dels: seq<Delegation>, v: Addr, height: nat)
    requires ValidatorOk(s, stake, dels, v, height)
    ensures CurrentOf(s, v).period > 0 && RecordOf(s, v, CurrentOf(s, v).period - 1).refs > 0
  {
    var p := CurrentOf(s, v).period - 1;
    assert RecordOf(s, v, p).refs == Refs(s, dels, v, p);
  }

  lemma ReleaseAt(s: State, v: Addr, p: nat, k: (Addr, nat))
    requires RecordOf(s, v, p).refs > 0
    ensures var t := Release(s, v, p);
      && t == s.(history := t.history)
      && (k != (v, p) ==> (k in t.history <==> k in s.history) && (k in t.history ==> t.history[k] == s.history[k]))
      && ((v, p) in t.history <==> s.history[(v, p)].refs > 1)
      && ((v, p) in t.history ==> t.history[(v, p)] == s.history[(v, p)].(refs := s.history[(v, p)].refs - 1))
  {
  }

  /** The stages of an increment that is not stopped. */
  lemma IncrementStages(s: State, v: Addr, tokens: nat) returns (s1: State, s2: State, ratio: Coins)
    requires IncrementPeriod(s, v, tokens).status.Done?
    ensures CurrentOf(s, v).period > 0 && RecordOf(s, v, CurrentOf(s, v).period - 1).refs > 0
    ensures tokens == 0 ==> Covers(OutstandingOf(s, v), CurrentOf(s, v).rewards)
    ensures s1 == if tokens == 0 then DonateCurrent(s, v) else s
    ensures s1.history == s.history &&
      RecordOf(s1, v, CurrentOf(s, v).period - 1) == RecordOf(s, v, CurrentOf(s, v).period - 1)
    ensures s2 == Release(s1, v, CurrentOf(s, v).period - 1)
    ensures ratio == Add(RecordOf(s, v, CurrentOf(s, v).period - 1).ratio, PeriodRatio(CurrentOf(s, v).rewards, tokens))
    ensures IncrementPeriod(s, v, tokens).state == OpenPeriod(s2, v, CurrentOf(s, v).period, ratio)
  {
    var cur := CurrentOf(s, v);
    s1 := if tokens == 0 then DonateCurrent(s, v) else s;
    assert RecordOf(s1, v, cur.period - 1) == RecordOf(s, v, cur.period - 1);
    s2 := Release(s1, v, cur.period - 1);
    ratio := Add(RecordOf(s, v, cur.period - 1).ratio, PeriodRatio(cur.rewards, tokens));
  }

  /** What an increment that is not stopped does to a record. */
  lemma IncrementAt(s: State, v: Addr, tokens: nat, k: (Addr, nat))
    requires IncrementPeriod(s, v, tokens).status.Done?
    ensures var t, n := IncrementPeriod(s, v, tokens).state, CurrentOf(s, v).period;
      && n > 0 && RecordOf(s, v, n - 1).refs > 0
      && (v, n) in t.history
      && t.history[(v, n)] == Record(Add(RecordOf(s, v, n - 1).ratio, PeriodRatio(CurrentOf(s, v).rewards, tokens)), 1)
      && (k != (v, n) && k != (v, n - 1) ==>
        (k in t.history <==> k in s.history) && (k in t.history ==> t.history[k] == s.history[k]))
      && ((v, n - 1) in t.history <==> s.history[(v, n - 1)].refs > 1)
      && ((v, n - 1) in t.history ==>
        t.history[(v, n - 1)] == s.history[(v, n - 1)].(refs := s.history[(v, n - 1)].refs - 1))
  {
    var s1, s2, r := IncrementStages(s, v, tokens);
    var n := CurrentOf(s, v).period;
    ReleaseAt(s1, v, n - 1, k);
  }

  /** What an increment that is not stopped leaves alone. */
  lemma IncrementRest(s: State, v: Addr, tokens: nat)
    requires IncrementPeriod(s, v, tokens).status.Done?
    ensures var t := IncrementPeriod(s, v, tokens).state;
      && t.infos == s.infos && t.slashes == s.slashes && t.commission == s.commission && t.balance == s.balance
      && t.current == s.current[v := Current(ZERO, CurrentOf(s, v).period + 1)]
  {
    var s1, s2, r := IncrementStages(s, v, tokens);
    ReleaseAt(s1, v, CurrentOf(s, v).period - 1, (v, 0));
  }

  /** The rewards of the period stay outstanding, unless the validator has no tokens: then they go to the pool. */
  lemma IncrementFunds(s: State, v: Addr, tokens: nat)
    requires IncrementPeriod(s, v, tokens).status.Done?
    ensures tokens == 0 ==> Covers(OutstandingOf(s, v), CurrentOf(s, v).rewards)
    ensures var t, u := IncrementPeriod(s, v, tokens).state, if tokens == 0 then DonateCurrent(s, v) else s;
      t.pool == u.pool && t.outstanding == u.outstanding
  {
    var s1, s2, r := IncrementStages(s, v, tokens);
    ReleaseAt(s1, v, CurrentOf(s, v).period - 1, (v, 0));
  }

  lemma SameForTransitive(s: State, t: State, u: State, w: Addr)
    requires SameFor(s, t, w) && SameFor(t, u, w)
    ensures SameFor(s, u, w)
  {
  }

  lemma DonateElsewhere(s: State, v: Addr, w: Addr)
    requires v != w && Covers(OutstandingOf(s, v), CurrentOf(s, v).rewards)
    ensures SameFor(s, DonateCurrent(s, v), w)
  {
  }

  lemma ReleaseElsewhere(s: State, v: Addr, p: nat, w: Addr)
    requires v != w && RecordOf(s, v, p).refs > 0
    ensures SameFor(s, Release(s, v, p), w)
  {
  }

  lemma OpenPeriodElsewhere(s: State, v: Addr, p: nat, ratio: Coins, w: Addr)
    requires v != w
    ensures SameFor(s, OpenPeriod(s, v, p, ratio), w)
  {
  }

  lemma IncrementElsewhere(s: State, v: Addr, tokens: nat, w: Addr)
    requires v != w && IncrementPeriod(s, v, tokens).status.Done?
    ensures SameFor(s, IncrementPeriod(s, v, tokens).state, w)
  {
    var s1, s2, r := IncrementStages(s, v, tokens);
    assert SameFor(s, s1, w) by {
      if tokens == 0 { DonateElsewhere(s, v, w); }
    }
    ReleaseElsewhere(s1, v, CurrentOf(s, v).period - 1, w);
    OpenPeriodElsewhere(s2, v, CurrentOf(s, v).period, r, w);
    SameForTransitive(s, s1, s2, w);
    SameForTransitive(s, s2, OpenPeriod(s2, v, CurrentOf(s, v).period, r), w);
  }

  lemma IncrementDone(s: State, stake: Stake, dels: seq<Delegation>, v: Addr, height: nat)
    requires ValidatorOk(s, stake, dels, v, height)
    ensures IncrementPeriod(s, v, stake.tokens).status.Done?
  {
    LastPeriodIsCounted(s, stake, dels, v, height);
  }

  /** What one increment does to the records of v. */
  lemma IncrementRecords(s: State, stake: Stake, dels: seq<Delegation>, v: Addr, height: nat, p: nat)
    requires ValidatorOk(s, stake, dels, v, height)
    ensures var t, n := IncrementPeriod(s, v, stake.tokens).state, CurrentOf(s, v).period;
      && t.infos == s.infos && t.slashes == s.slashes && t.commission == s.commission && t.balance == s.balance
      && CurrentOf(t, v) == Current(ZERO, n + 1)
      && (p == n ==>
        RecordOf(t, v, p) ==
        Record(Add(RecordOf(s, v, n - 1).ratio, PeriodRatio(CurrentOf(s, v).rewards, stake.tokens)), 1))
      && (p == n - 1 ==> RecordOf(t, v, p).refs == RecordOf(s, v, p).refs - 1)
      && (p != n && p != n - 1 ==> RecordOf(t, v, p) == RecordOf(s, v, p))
      && ((v, p) in t.history ==> p == n || ((v, p) in s.history && t.history[(v, p)].ratio == s.history[(v, p)].ratio))
      && ((v, p) in t.history ==> t.history[(v, p)].refs > 0)
      && ((v, n) in t.history)
  {
    IncrementDone(s, stake, dels, v, height);
    IncrementAt(s, v, stake.tokens, (v, p));
    IncrementRest(s, v, stake.tokens);
    if (v, p) in s.history { assert s.history[(v, p)].refs > 0; }
  }

  lemma IncrementCounted(s: State, stake: Stake, dels: seq<Delegation>, v: Addr, height: nat)
    requires ValidatorOk(s, stake, dels, v, height)
    ensures Counted(IncrementPeriod(s, v, stake.tokens).state, dels, v)
  {
    var t, n := IncrementPeriod(s, v, stake.tokens).state, CurrentOf(s, v).period;
    forall p: nat
      ensures RecordOf(t, v, p).refs == Refs(t, dels, v, p) && ((v, p) in t.history ==> t.history[(v, p)].refs > 0)
    {
      IncrementRecords(s, stake, dels, v, height, p);
      assert RecordOf(s, v, p).refs == Refs(s, dels, v, p);
      if p == n { assert (v, n) !in s.history; }
    }
  }

  lemma IncrementGrowing(s: State, stake: Stake, dels: seq<Delegation>, v: Addr, height: nat)
    requires ValidatorOk(s, stake, dels, v, height)
    ensures Growing(IncrementPeriod(s, v, stake.tokens).state, v)
    ensures Ended(IncrementPeriod(s, v, stake.tokens).state, v)
  {
    var t, n := IncrementPeriod(s, v, stake.tokens).state, CurrentOf(s, v).period;
    LastPeriodIsCounted(s, stake, dels, v, height);
    assert (v, n - 1) in s.history;
    forall p: nat ensures (v, p) in t.history ==> p <= n {
      IncrementRecords(s, stake, dels, v, height, p);
    }
    forall p: nat, q: nat | p <= q && (v, p) in t.history && (v, q) in t.history
      ensures Covers(t.history[(v, q)].ratio, t.history[(v, p)].ratio)
    {
      IncrementRecords(s, stake, dels, v, height, p);
      IncrementRecords(s, stake, dels, v, height, q);
      if p < n {
        var r := if q == n then n - 1 else q;
        assert Covers(s.history[(v, r)].ratio, s.history[(v, p)].ratio);
        CoversMeans(s.history[(v, r)].ratio, s.history[(v, p)].ratio);
      }
      CoversMeans(t.history[(v, q)].ratio, t.history[(v, p)].ratio);
    }
    IncrementRecords(s, stake, dels, v, height, n);
  }

  /** IncrementValidatorPeriod keeps the invariant, and under it no guard fires. */
  lemma IncrementKeepsOk(s: State, stake: Stake, dels: seq<Delegation>, v: Addr, height: nat)
    requires ValidatorOk(s, stake, dels, v, height)
    ensures IncrementPeriod(s, v, stake.tokens).status.Done?
    ensures ValidatorOk(IncrementPeriod(s, v, stake.tokens).state, stake, dels, v, height)
  {
    var t, n := IncrementPeriod(s, v, stake.tokens).state, CurrentOf(s, v).period;
    IncrementDone(s, stake, dels, v, height);
    IncrementCounted(s, stake, dels, v, height);
    IncrementGrowing(s, stake, dels, v, height);
    IncrementRecords(s, stake, dels, v, height, n);
    forall i | 0 <= i < |dels| && dels[i].validator == v ensures DelegationSound(t, stake, dels[i], height) {
      assert DelegationSound(s, stake, dels[i], height);
    }
  }

  // ---- Rewards ----

  /** With growing ratios over live records, a sound stake and ended periods, no guard of the computation fires. */
  lemma {:induction false} AccrueDefined(s: State, v: Addr, from: nat, stake: nat, events: seq<Slash>, low: nat,
      high: nat, ending: nat, owned: nat)
    requires Growing(s, v) && StakeSound(from, stake, events, low, high, owned)
    requires from <= ending && (v, from) in s.history && (v, ending) in s.history
    requires forall e :: e in events ==> e.period <= ending && (v, e.period) in s.history
    ensures Accrue(s, v, from, stake, events, low, high, ending, owned).Defined?
    decreases |events|
  {
    if events != [] {
      var e := events[0];
      if Splits(e, from, low, high) {
        AccrueDefined(s, v, e.period, AfterSlash(stake, e), events[1..], low, high, ending, owned);
      } else {
        AccrueDefined(s, v, from, stake, events[1..], low, high, ending, owned);
      }
    }
  }

  /** The records that slash events refer to are live. */
  lemma SlashRecordsLive(s: State, dels: seq<Delegation>, v: Addr)
    requires Counted(s, dels, v)
    ensures forall e :: e in SlashesOf(s, v) ==> (v, e.period) in s.history
  {
    forall e | e in SlashesOf(s, v) ensures (v, e.period) in s.history {
      SlashRefsHas(SlashesOf(s, v), e);
      assert RecordOf(s, v, e.period).refs == Refs(s, dels, v, e.period);
    }
  }

  /** A delegation under the invariant has a defined reward up to a period that has just been closed. */
  lemma RewardsDefined(s: State, stake: Stake, dels: seq<Delegation>, k: nat, height: nat)
    requires k < |dels| && ValidatorOk(s, stake, dels, dels[k].validator, height)
    requires (dels[k].validator, dels[k].delegator) in s.infos
    ensures DelegationRewards(s, dels[k], stake, CurrentOf(s, dels[k].validator).period - 1, height).Defined?
  {
    var del := dels[k];
    var v, info := del.validator, s.infos[(del.validator, del.delegator)];
    var ending := CurrentOf(s, v).period - 1;
    assert DelegationSound(s, stake, del, height);
    assert RecordOf(s, v, info.previous).refs == Refs(s, dels, v, info.previous);
    InfoRefsHas(s.infos, dels, k, info.previous);
    LastPeriodIsCounted(s, stake, dels, v, height);
    SlashRecordsLive(s, dels, v);
    if info.height != height {
      AccrueDefined(s, v, info.previous, info.stake, SlashesOf(s, v), info.height, height, ending,
        StakeRounded(del.shares, stake));
    }
  }

  /** Where every cumulative ratio is zero, so is every reward. */
  lemma {:induction false} AccrueZero(s: State, v: Addr, from: nat, stake: nat, events: seq<Slash>, low: nat, high: nat,
      ending: nat, owned: nat)
    requires forall p: nat :: RecordOf(s, v, p).ratio == ZERO
    ensures var a := Accrue(s, v, from, stake, events, low, high, ending, owned); a.Defined? ==> a.rewards == ZERO
    decreases |events|
  {
    if events == [] {
      BetweenZero(s, v, from, ending, if stake > owned then owned else stake);
    } else {
      var e := events[0];
      if Splits(e, from, low, high) {
        BetweenZero(s, v, from, e.period, stake);
        AccrueZero(s, v, e.period, AfterSlash(stake, e), events[1..], low, high, ending, owned);
        AddZero(ZERO);
      } else {
        AccrueZero(s, v, from, stake, events[1..], low, high, ending, owned);
      }
    }
  }

  lemma BetweenZero(s: State, v: Addr, from: nat, to: nat, stake: nat)
    requires forall p: nat :: RecordOf(s, v, p).ratio == ZERO
    ensures var a := RewardsBetween(s, v, from, to, stake); a.Defined? ==> a.rewards == ZERO
  {
    assert RecordOf(s, v, from).ratio == ZERO && RecordOf(s, v, to).ratio == ZERO;
    assert Sub(ZERO, ZERO) == ZERO && MulTruncate(ZERO, stake) == ZERO;
  }

  // ---- WithdrawRewards ----

  /** Moving funds of the module, the pool and v keeps the invariant while the period's rewards stay covered. */
  lemma FundsKeepOk(s: State, t: State, stake: Stake, dels: seq<Delegation>, v: Addr, height: nat)
    requires ValidatorOk(s, stake, dels, v, height)
    requires t == s.(balance := t.balance, pool := t.pool, outstanding := t.outstanding, commission := t.commission)
    requires Covers(OutstandingOf(t, v), CurrentOf(t, v).rewards)
    ensures ValidatorOk(t, stake, dels, v, height)
  {
    forall p: nat ensures RecordOf(t, v, p).refs == Refs(t, dels, v, p) {
      assert RecordOf(s, v, p).refs == Refs(s, dels, v, p);
    }
    forall i | 0 <= i < |dels| && dels[i].validator == v ensures DelegationSound(t, stake, dels[i], height) {
      assert DelegationSound(s, stake, dels[i], height);
    }
  }

  lemma EndKeepsOk(s: State, stake: Stake, dels: seq<Delegation>, k: nat, height: nat)
    requires Distinct(dels) && k < |dels| && ValidatorOk(s, stake, dels, dels[k].validator, height)
    requires (dels[k].validator, dels[k].delegator) in s.infos
    ensures RecordOf(s, dels[k].validator, s.infos[(dels[k].validator, dels[k].delegator)].previous).refs > 0
    ensures ValidatorOk(EndDelegation(s, dels[k]), stake, dels, dels[k].validator, height)
  {
    var v, d := dels[k].validator, dels[k].delegator;
    var start := s.infos[(v, d)].previous;
    assert RecordOf(s, v, start).refs == Refs(s, dels, v, start);
    InfoRefsHas(s.infos, dels, k, start);
    var t := EndDelegation(s, dels[k]);
    forall p: nat
      ensures RecordOf(t, v, p).refs == Refs(t, dels, v, p) && ((v, p) in t.history ==> t.history[(v, p)].refs > 0)
    {
      assert RecordOf(s, v, p).refs == Refs(s, dels, v, p);
      ReleaseAt(s, v, start, (v, p));
      InfoRefsChange(s.infos, t.infos, dels, k, p);
    }
    forall p: nat
      ensures (v, p) in t.history ==> (v, p) in s.history && t.history[(v, p)].ratio == s.history[(v, p)].ratio
    {
      ReleaseAt(s, v, start, (v, p));
    }
    forall i | 0 <= i < |dels| && dels[i].validator == v ensures DelegationSound(t, stake, dels[i], height) {
      assert DelegationSound(s, stake, dels[i], height);
    }
  }

  lemma TruncatedAtMostRounded(shares: nat, stake: Stake)
    requires stake.shares > 0
    ensures StakeTruncated(shares, stake) <= StakeRounded(shares, stake)
  {
    var x := shares * stake.tokens * ONE;
    var q := x / stake.shares;
    var scaled := x * ONE / stake.shares;
    assert q * stake.shares <= x;
    assert q * ONE * stake.shares <= x * ONE by {
      assert q * ONE * stake.shares == q * stake.shares * ONE;
    }
    QuotientBound(x * ONE, stake.shares, q * ONE);
    QuotientBound(scaled, ONE, q);
  }

  lemma QuotientBound(x: nat, y: nat, q: nat)
    requires y > 0 && q * y <= x
    ensures q <= x / y
  {
    var m := x / y;
    assert x < (m + 1) * y;
    assert q * y < (m + 1) * y;
  }

  /** Events of ended periods before the tracked one never split a reward, so the tracked stake stays as it is. */
  lemma {:induction false} FreshStakeSound(from: nat, stake: nat, events: seq<Slash>, low: nat, high: nat, owned: nat)
    requires stake <= owned && forall e :: e in events ==> e.period <= from
    ensures StakeSound(from, stake, events, low, high, owned)
    decreases |events|
  {
    if events != [] {
      assert !Splits(events[0], from, low, high);
      FreshStakeSound(from, stake, events[1..], low, high, owned);
    }
  }

  lemma StartDone(s: State, stake: Stake, dels: seq<Delegation>, k: nat, height: nat, at: nat)
    requires k < |dels| && ValidatorOk(s, stake, dels, dels[k].validator, height)
    requires RecordOf(s, dels[k].validator, CurrentOf(s, dels[k].validator).period - 1).refs <= 2
    ensures var v, last, r := dels[k].validator, CurrentOf(s, dels[k].validator).period - 1,
      StartDelegation(s, dels[k], stake, at);
      && r.status.Done?
      && (v, last) in s.history
      && r.state == s.(history := s.history[(v, last) := s.history[(v, last)].(refs := s.history[(v, last)].refs + 1)],
                       infos := s.infos[(v, dels[k].delegator) :=
                         Info(last, StakeTruncated(dels[k].shares, stake), at)])
  {
    assert DelegationSound(s, stake, dels[k], height);
    LastPeriodIsCounted(s, stake, dels, dels[k].validator, height);
  }

  lemma StartCounted(s: State, stake: Stake, dels: seq<Delegation>, k: nat, height: nat, at: nat)
    requires Distinct(dels) && k < |dels| && ValidatorOk(s, stake, dels, dels[k].validator, height)
    requires (dels[k].validator, dels[k].delegator) !in s.infos
    requires RecordOf(s, dels[k].validator, CurrentOf(s, dels[k].validator).period - 1).refs <= 2
    ensures Counted(StartDelegation(s, dels[k], stake, at).state, dels, dels[k].validator)
  {
    var v := dels[k].validator;
    StartDone(s, stake, dels, k, height, at);
    var t := StartDelegation(s, dels[k], stake, at).state;
    forall p: nat
      ensures RecordOf(t, v, p).refs == Refs(t, dels, v, p) && ((v, p) in t.history ==> t.history[(v, p)].refs > 0)
    {
      assert RecordOf(s, v, p).refs == Refs(s, dels, v, p);
      InfoRefsChange(s.infos, t.infos, dels, k, p);
    }
  }

  lemma StartKeepsOk(s: State, stake: Stake, dels: seq<Delegation>, k: nat, height: nat, at: nat)
    requires Distinct(dels) && k < |dels| && ValidatorOk(s, stake, dels, dels[k].validator, height)
    requires (dels[k].validator, dels[k].delegator) !in s.infos
    requires RecordOf(s, dels[k].validator, CurrentOf(s, dels[k].validator).period - 1).refs <= 2
    ensures StartDelegation(s, dels[k], stake, at).status.Done?
    ensures ValidatorOk(StartDelegation(s, dels[k], stake, at).state, stake, dels, dels[k].validator, height)
  {
    var v, d := dels[k].validator, dels[k].delegator;
    var last := CurrentOf(s, v).period - 1;
    assert DelegationSound(s, stake, dels[k], height);
    StartDone(s, stake, dels, k, height, at);
    StartCounted(s, stake, dels, k, height, at);
    var t := StartDelegation(s, dels[k], stake, at).state;
    forall i | 0 <= i < |dels| && dels[i].validator == v ensures DelegationSound(t, stake, dels[i], height) {
      assert DelegationSound(s, stake, dels[i], height);
      if dels[i].delegator == d {
        assert i == k;
        TruncatedAtMostRounded(dels[k].shares, stake);
        FreshStakeSound(last, t.infos[(v, d)].stake, SlashesOf(t, v), at, height, StakeRounded(dels[k].shares, stake));
      }
    }
  }

  lemma PayTouchesOnly(s: State, v: Addr, rewards: Coins)
    requires Covers(OutstandingOf(s, v), rewards) && Covers(s.balance, Whole(rewards))
    ensures var t := PayRewards(s, v, rewards);
      && t == s.(balance := t.balance, pool := t.pool, outstanding := t.outstanding)
      && t.outstanding == s.outstanding[v := OutstandingOf(t, v)]
  {
  }

  lemma PayElsewhere(s: State, v: Addr, rewards: Coins, w: Addr)
    requires v != w && Covers(OutstandingOf(s, v), rewards) && Covers(s.balance, Whole(rewards))
    ensures SameFor(s, PayRewards(s, v, rewards), w)
  {
    PayTouchesOnly(s, v, rewards);
    SameFundsElsewhere(s, PayRewards(s, v, rewards), v, w);
  }

  lemma SameFundsElsewhere(s: State, t: State, v: Addr, w: Addr)
    requires v != w
    requires t == s.(balance := t.balance, pool := t.pool, outstanding := t.outstanding, commission := t.commission)
    requires t.outstanding == s.outstanding || t.outstanding == s.outstanding[v := OutstandingOf(t, v)]
    requires t.commission == s.commission || t.commission == s.commission[v := CommissionOf(t, v)]
    ensures SameFor(s, t, w)
  {
  }

  lemma EndElsewhere(s: State, del: Delegation, w: Addr)
    requires (del.validator, del.delegator) in s.infos
    requires RecordOf(s, del.validator, s.infos[(del.validator, del.delegator)].previous).refs > 0
    requires del.validator != w
    ensures SameFor(s, EndDelegation(s, del), w)
  {
    var start := s.infos[(del.validator, del.delegator)].previous;
    ReleaseElsewhere(s, del.validator, start, w);
    SameForTransitive(s, Release(s, del.validator, start), EndDelegation(s, del), w);
  }

  lemma StartElsewhere(s: State, del: Delegation, stake: Stake, height: nat, w: Addr)
    requires del.validator != w
    ensures SameFor(s, StartDelegation(s, del, stake, height).state, w)
  {
    if StartDelegation(s, del, stake, height).status.Done? {
      var s1 := Retain(s, del.validator, CurrentOf(s, del.validator).period - 1);
      RetainElsewhere(s, del.validator, CurrentOf(s, del.validator).period - 1, w);
      SameForTransitive(s, s1, StartDelegation(s, del, stake, height).state, w);
    }
  }

  lemma RetainElsewhere(s: State, v: Addr, p: nat, w: Addr)
    requires v != w
    ensures SameFor(s, Retain(s, v, p), w)
  {
  }

  /** The stages of a reward withdrawal that finds its validator and its starting info. */
  lemma WithdrawStages(s: State, stakes: map<Key, Stake>, dels: seq<Delegation>, k: nat, height: nat,
      refused: set<Addr>)
    returns (ended: State, rewards: Coins)
    requires Distinct(dels) && k < |dels| && ValidatorKey(dels[k].validator) in stakes
    requires ValidatorOk(s, stakes[ValidatorKey(dels[k].validator)], dels, dels[k].validator, height)
    requires (dels[k].validator, dels[k].delegator) in s.infos
    ensures var del, v, stake := dels[k], dels[k].validator, stakes[ValidatorKey(dels[k].validator)];
      && IncrementPeriod(s, v, stake.tokens) == Step(ended, Done)
      && ValidatorOk(ended, stake, dels, v, height)
      && ended.infos == s.infos
      && CurrentOf(ended, v) == Current(ZERO, CurrentOf(s, v).period + 1)
      && var raw := DelegationRewards(ended, del, stake, CurrentOf(s, v).period, height);
      && raw.Defined? && rewards == Intersect(raw.rewards, OutstandingOf(ended, v))
      && (PayoutFails(ended, del.delegator, Whole(rewards), refused) ==>
            WithdrawRewards(s, stakes, del, height, refused) == Step(ended, Failed))
  {
    var del, v, stake := dels[k], dels[k].validator, stakes[ValidatorKey(dels[k].validator)];
    IncrementKeepsOk(s, stake, dels, v, height);
    IncrementRest(s, v, stake.tokens);
    ended := IncrementPeriod(s, v, stake.tokens).state;
    RewardsDefined(ended, stake, dels, k, height);
    rewards := Intersect(DelegationRewards(ended, del, stake, CurrentOf(s, v).period, height).rewards,
      OutstandingOf(ended, v));
  }

  /** The stages after the payout: the delegation is ended and started again. */
  lemma RestartStages(s: State, stake: Stake, dels: seq<Delegation>, k: nat, height: nat, rewards: Coins)
    returns (paid: State, closed: State)
    requires Distinct(dels) && k < |dels| && ValidatorOk(s, stake, dels, dels[k].validator, height)
    requires (dels[k].validator, dels[k].delegator) in s.infos
    requires CurrentOf(s, dels[k].validator).rewards == ZERO
    requires RecordOf(s, dels[k].validator, CurrentOf(s, dels[k].validator).period - 1).refs <= 1
    requires Covers(OutstandingOf(s, dels[k].validator), rewards) && Covers(s.balance, Whole(rewards))
    ensures paid == PayRewards(s, dels[k].validator, rewards)
    ensures RecordOf(paid, dels[k].validator, paid.infos[(dels[k].validator, dels[k].delegator)].previous).refs > 0
    ensures closed == EndDelegation(paid, dels[k])
    ensures StartDelegation(closed, dels[k], stake, height).status.Done?
    ensures ValidatorOk(StartDelegation(closed, dels[k], stake, height).state, stake, dels, dels[k].validator, height)
  {
    var del, v := dels[k], dels[k].validator;
    paid := PayRewards(s, v, rewards);
    FundsKeepOk(s, paid, stake, dels, v, height);
    EndKeepsOk(paid, stake, dels, k, height);
    closed := EndDelegation(paid, del);
    ReleaseAt(paid, v, paid.infos[(v, del.delegator)].previous, (v, CurrentOf(s, v).period - 1));
    StartKeepsOk(closed, stake, dels, k, height, height);
  }

  /** A withdrawal that finds its validator and info: refused once the period is closed, or paid and restarted. */
  lemma Withdrawal(s: State, stakes: map<Key, Stake>, dels: seq<Delegation>, k: nat, height: nat, refused: set<Addr>)
    returns (ended: State, rewards: Coins)
    requires Distinct(dels) && k < |dels| && ValidatorKey(dels[k].validator) in stakes
    requires ValidatorOk(s, stakes[ValidatorKey(dels[k].validator)], dels, dels[k].validator, height)
    requires (dels[k].validator, dels[k].delegator) in s.infos
    ensures var del, v, stake := dels[k], dels[k].validator, stakes[ValidatorKey(dels[k].validator)];
      var r := WithdrawRewards(s, stakes, del, height, refused);
      && IncrementPeriod(s, v, stake.tokens) == Step(ended, Done)
      && (var raw := DelegationRewards(ended, del, stake, CurrentOf(s, v).period, height);
          raw.Defined? && rewards == Intersect(raw.rewards, OutstandingOf(ended, v)))
      && ValidatorOk(r.state, stake, dels, v, height)
      && if PayoutFails(ended, del.delegator, Whole(rewards), refused) then r == Step(ended, Failed)
         else Paid(ended, rewards, del, stake, height, r)
  {
    var del, v, stake := dels[k], dels[k].validator, stakes[ValidatorKey(dels[k].validator)];
    ended, rewards := WithdrawStages(s, stakes, dels, k, height, refused);
    if !PayoutFails(ended, del.delegator, Whole(rewards), refused) {
      IncrementAt(s, v, stake.tokens, (v, 0));
      var paid, closed := RestartStages(ended, stake, dels, k, height, rewards);
      assert WithdrawRewards(s, stakes, del, height, refused) == StartDelegation(closed, del, stake, height);
    }
  }

  /** `r` is the outcome of paying `rewards` and starting the delegation again. */
  ghost predicate Paid(ended: State, rewards: Coins, del: Delegation, stake: Stake, height: nat, r: Step)
  {
    var v := del.validator;
    && Covers(OutstandingOf(ended, v), rewards) && Covers(ended.balance, Whole(rewards))
    && var paid := PayRewards(ended, v, rewards);
    && (v, del.delegator) in paid.infos && RecordOf(paid, v, paid.infos[(v, del.delegator)].previous).refs > 0
    && r == StartDelegation(EndDelegation(paid, del), del, stake, height)
    && r.status.Done?
  }

  /** WithdrawDelegationRewards keeps the invariant whether it pays, is refused, or finds nothing, and never panics. */
  lemma WithdrawKeepsWellFormed(s: State, stakes: map<Key, Stake>, dels: seq<Delegation>, k: nat, height: nat,
      refused: set<Addr>)
    requires WellFormed(s, stakes, dels, height) && k < |dels|
    ensures !WithdrawRewards(s, stakes, dels[k], height, refused).status.Panicked?
    ensures WellFormed(WithdrawRewards(s, stakes, dels[k], height, refused).state, stakes, dels, height)
  {
    var del, v := dels[k], dels[k].validator;
    var r := WithdrawRewards(s, stakes, del, height, refused);
    if ValidatorKey(v) in stakes && (v, del.delegator) in s.infos {
      var stake := stakes[ValidatorKey(v)];
      assert ValidatorOk(s, stake, dels, v, height);
      var ended, rewards := Withdrawal(s, stakes, dels, k, height, refused);
      WithdrawElsewhere(s, stakes, dels, k, height, refused);
      WellFormedElsewhere(s, r.state, stakes, dels, v, height);
    }
  }

  /** A withdrawal concerns only the validator of its delegation. */
  lemma WithdrawElsewhere(s: State, stakes: map<Key, Stake>, dels: seq<Delegation>, k: nat, height: nat,
      refused: set<Addr>)
    requires WellFormed(s, stakes, dels, height) && k < |dels|
    ensures forall w: Addr {:trigger SameFor(s, WithdrawRewards(s, stakes, dels[k], height, refused).state, w)} ::
      w != dels[k].validator ==> SameFor(s, WithdrawRewards(s, stakes, dels[k], height, refused).state, w)
  {
    var del, v := dels[k], dels[k].validator;
    var r := WithdrawRewards(s, stakes, del, height, refused);
    if ValidatorKey(v) in stakes && (v, del.delegator) in s.infos {
      var stake := stakes[ValidatorKey(v)];
      assert ValidatorOk(s, stake, dels, v, height);
      var ended, rewards := Withdrawal(s, stakes, dels, k, height, refused);
      forall w: Addr {:trigger SameFor(s, r.state, w)} | w != v ensures SameFor(s, r.state, w) {
        IncrementElsewhere(s, v, stake.tokens, w);
        if r.status.Done? { PaidElsewhere(s, ended, rewards, del, stake, height, r, w); }
      }
    }
  }

  lemma PaidElsewhere(s: State, ended: State, rewards: Coins, del: Delegation, stake: Stake, height: nat, r: Step,
      w: Addr)
    requires del.validator != w && SameFor(s, ended, w) && Paid(ended, rewards, del, stake, height, r)
    ensures SameFor(s, r.state, w)
  {
    var paid := PayRewards(ended, del.validator, rewards);
    PayElsewhere(ended, del.validator, rewards, w);
    EndElsewhere(paid, del, w);
    StartElsewhere(EndDelegation(paid, del), del, stake, height, w);
    SameForTransitive(s, ended, paid, w);
    SameForTransitive(s, paid, EndDelegation(paid, del), w);
    SameForTransitive(s, EndDelegation(paid, del), r.state, w);
  }

  /** A step that concerns only v keeps the invariant if it does so for v. */
  lemma WellFormedElsewhere(s: State, t: State, stakes: map<Key, Stake>, dels: seq<Delegation>, v: Addr, height: nat)
    requires WellFormed(s, stakes, dels, height)
    requires forall w: Addr :: w != v ==> SameFor(s, t, w)
    requires ValidatorKey(v) in stakes ==> ValidatorOk(t, stakes[ValidatorKey(v)], dels, v, height)
    ensures WellFormed(t, stakes, dels, height)
  {
    forall w: Addr | ValidatorKey(w) in stakes ensures ValidatorOk(t, stakes[ValidatorKey(w)], dels, w, height) {
      if w != v { OkElsewhere(s, t, stakes[ValidatorKey(w)], dels, w, height); }
    }
  }
}
