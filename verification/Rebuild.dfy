/**
 The state that the rebuild passes produce, described independently of how they get there:
 it depends only on the validators, the delegations and their stakes.
 */
module Rebuild {
  import opened Bytes
  import opened DecCoins
  import opened StakingTypes
  import opened FeeDistribution
  import opened FeeInvariant
  import opened ZeroHeight
  import opened Conservation

  /** How many of the delegations are to v. */
  ghost function CountFor(dels: seq<Delegation>, v: Addr): nat
    decreases |dels|
  {
    if dels == [] then 0
    else CountFor(dels[..|dels| - 1], v) + if dels[|dels| - 1].validator == v then 1 else 0
  }

  /** The live periods of a validator rebuilt with k delegations: 1 to k, or 0 alone when there are none. */
  ghost predicate LivePeriod(k: nat, p: nat)
  {
    if k == 0 then p == 0 else 1 <= p <= k
  }

  /** Each live record is referred to once, by its delegation or by being the last period, and the last one by both. */
  ghost function RebuiltRecord(k: nat, p: nat): Record
  {
    Record(ZERO, if k > 0 && p == k then 2 else 1)
  }

  ghost predicate RebuiltValidator(s: State, v: Addr, k: nat)
  {
    && v in s.current && s.current[v] == Current(ZERO, k + 1)
    && v in s.outstanding && s.outstanding[v] == ZERO
    && v in s.commission && s.commission[v] == ZERO
    && forall p: nat ::
      ((v, p) in s.history <==> LivePeriod(k, p)) && (LivePeriod(k, p) ==> s.history[(v, p)] == RebuiltRecord(k, p))
  }

  /** The info of the i-th delegation: it tracks the period that its own rebuild closed, from height zero. */
  ghost function RebuiltInfo(stakes: map<Key, Stake>, dels: seq<Delegation>, i: nat, height: nat): Info
    requires i < |dels| && ValidatorKey(dels[i].validator) in stakes &&
      stakes[ValidatorKey(dels[i].validator)].shares > 0
  {
    Info(CountFor(dels[..i + 1], dels[i].validator),
      StakeTruncated(dels[i].shares, stakes[ValidatorKey(dels[i].validator)]), height)
  }

  /** The i-th delegation is to a known validator, which has shares. */
  ghost predicate Served(stakes: map<Key, Stake>, dels: seq<Delegation>, i: nat)
    requires i < |dels|
  {
    ValidatorKey(dels[i].validator) in stakes && stakes[ValidatorKey(dels[i].validator)].shares > 0
  }

  ghost predicate RebuiltInfos(s: State, stakes: map<Key, Stake>, dels: seq<Delegation>, n: nat, height: nat)
    requires n <= |dels|
  {
    forall i :: 0 <= i < n ==>
      Served(stakes, dels, i) &&
      (dels[i].validator, dels[i].delegator) in s.infos &&
      s.infos[(dels[i].validator, dels[i].delegator)] == RebuiltInfo(stakes, dels, i, height)
  }

  /** The distribution records after the first n delegations were rebuilt. */
  ghost predicate Rebuilt(s: State, stakes: map<Key, Stake>, order: seq<Addr>, dels: seq<Delegation>, n: nat,
      height: nat)
    requires n <= |dels|
  {
    && (forall v: Addr :: v in order ==> RebuiltValidator(s, v, CountFor(dels[..n], v)))
    && (forall k :: k in s.history ==> k.0 in order)
    && s.slashes == map[]
    && RebuiltInfos(s, stakes, dels, n, height)
  }

  /** Only records, counts and infos may differ. */
  ghost predicate SameFunds(s: State, t: State)
  {
    && t.balance == s.balance && t.pool == s.pool
    && t.outstanding == s.outstanding && t.commission == s.commission
    && t.current.Keys == s.current.Keys
  }

  ghost function InfoKeys(dels: seq<Delegation>): set<(Addr, Addr)>
  {
    set del | del in dels :: (del.validator, del.delegator)
  }

  // ---- Reinitialising the validators ----

  /** Reinitialising one more validator. */
  lemma ReinitNext(s: State, order: seq<Addr>, i: nat)
    requires i < |order|
    ensures ReinitValidators(s, order[..i + 1]) == ReinitValidator(ReinitValidators(s, order[..i]), order[i])
    ensures forall v: Addr :: v in order[..i + 1] <==> v == order[i] || v in order[..i]
  {
    assert order[..i + 1][..i] == order[..i];
    assert order[..i + 1] == order[..i] + [order[i]];
  }

  lemma {:induction false} ReinitPass(s: State, order: seq<Addr>, i: nat)
    requires Unique(order) && i <= |order|
    requires s.history == map[] && s.slashes == map[]
    ensures Reinitialised(s, ReinitValidators(s, order[..i]), order[..i])
    decreases i
  {
    if i > 0 {
      ReinitPass(s, order, i - 1);
      ReinitNext(s, order, i - 1);
      NotBefore(order, i - 1);
      ReinitStep(s, ReinitValidators(s, order[..i - 1]), order[..i - 1], order[..i], order[i - 1]);
    } else {
      assert order[..0] == [];
    }
  }

  /** t is s with the validators `done` in their first period, and with no history of others. */
  ghost predicate Reinitialised(s: State, t: State, done: seq<Addr>)
  {
    && t.infos == s.infos && t.slashes == map[]
    && (forall v: Addr :: v in done ==> RebuiltValidator(t, v, 0))
    && (forall k :: k in t.history ==> k.0 in done)
  }

  lemma NotBefore(order: seq<Addr>, i: nat)
    requires Unique(order) && i < |order|
    ensures order[i] !in order[..i]
  {
  }

  /** Reinitialising a validator that is not among those already done. */
  lemma ReinitStep(start: State, s: State, done: seq<Addr>, more: seq<Addr>, v: Addr)
    requires v !in done && forall w: Addr :: w in more <==> w == v || w in done
    requires Reinitialised(start, s, done)
    ensures Reinitialised(start, ReinitValidator(s, v), more)
  {
    forall w: Addr | w in more ensures RebuiltValidator(ReinitValidator(s, v), w, 0) {
      if w == v { ReinitAt(s, v); } else { ReinitElsewhere(s, v, w); }
    }
  }

  lemma ReinitAt(s: State, v: Addr)
    requires forall k :: k in s.history ==> k.0 != v
    ensures RebuiltValidator(ReinitValidator(s, v), v, 0)
  {
    forall p: nat ensures (v, p) !in s.history {
      var k := (v, p);
      assert k.0 == v;
    }
  }

  lemma ReinitElsewhere(s: State, v: Addr, w: Addr)
    requires v != w && RebuiltValidator(s, w, 0)
    ensures RebuiltValidator(ReinitValidator(s, v), w, 0)
  {
    RebuiltElsewhere(s.(outstanding := ReinitValidator(s, v).outstanding,
      commission := ReinitValidator(s, v).commission), ReinitValidator(s, v), w, 0);
  }

  lemma {:induction false} ReinitGap(s: State, order: seq<Addr>, i: nat, d: Denom)
    requires Unique(order) && i <= |order|
    ensures Gap(ReinitValidators(s, order[..i]), order, d) == Gap(s, order, d)
    decreases i
  {
    if i > 0 {
      ReinitGap(s, order, i - 1, d);
      ReinitNext(s, order, i - 1);
      ReinitConserves(ReinitValidators(s, order[..i - 1]), order, order[i - 1], d);
    } else {
      assert order[..0] == [];
    }
  }

  // ---- Rebuilding the delegations ----

  /** One increment on a rebuilt validator: the last period is closed at ratio zero. */
  lemma IncrementRebuilt(s: State, v: Addr, k: nat, tokens: nat)
    requires RebuiltValidator(s, v, k)
    ensures var r := IncrementPeriod(s, v, tokens);
      && r.status.Done?
      && r.state.infos == s.infos && r.state.slashes == s.slashes && r.state.balance == s.balance &&
        r.state.pool == s.pool
      && r.state.outstanding == s.outstanding && r.state.commission == s.commission
      && r.state.current == s.current[v := Current(ZERO, k + 2)]
      && (v, k + 1) in r.state.history && r.state.history[(v, k + 1)] == Record(ZERO, 1)
      && (forall q: (Addr, nat) :: q != (v, k + 1) && q != (v, k) ==>
            (q in r.state.history <==> q in s.history) && (q in s.history ==> r.state.history[q] == s.history[q]))
      && ((v, k) in r.state.history <==> k > 0)
      && (k > 0 ==> r.state.history[(v, k)] == Record(ZERO, 1))
  {
    RebuiltIncrements(s, v, k, tokens);
    IncrementRest(s, v, tokens);
    IncrementFunds(s, v, tokens);
    RebuiltDonates(s, v, k);
    IncrementAt(s, v, tokens, (v, k));
    AddZero(ZERO);
    forall q: (Addr, nat) | q != (v, k + 1) && q != (v, k)
      ensures (q in IncrementPeriod(s, v, tokens).state.history <==> q in s.history) &&
              (q in s.history ==> IncrementPeriod(s, v, tokens).state.history[q] == s.history[q])
    {
      IncrementAt(s, v, tokens, q);
    }
  }

  lemma RebuiltIncrements(s: State, v: Addr, k: nat, tokens: nat)
    requires RebuiltValidator(s, v, k)
    ensures IncrementPeriod(s, v, tokens).status.Done?
    ensures RecordOf(s, v, k) == RebuiltRecord(k, k) && PeriodRatio(ZERO, tokens) == ZERO
  {
    assert LivePeriod(k, k);
    assert RecordOf(s, v, k) == RebuiltRecord(k, k);
    SubZero(ZERO);
  }

  /** Donating the rewards of a rebuilt validator's open period moves nothing. */
  lemma RebuiltDonates(s: State, v: Addr, k: nat)
    requires RebuiltValidator(s, v, k)
    ensures Covers(OutstandingOf(s, v), CurrentOf(s, v).rewards) && DonateCurrent(s, v) == s
  {
    SubZero(ZERO);
    AddZero(s.pool);
    assert s.outstanding[v := ZERO] == s.outstanding;
  }

  /** t is s with one more delegation of a validator that had k of them. */
  ghost predicate AddsDelegation(s: State, t: State, stakes: map<Key, Stake>, del: Delegation, k: nat, height: nat)
    requires ValidatorKey(del.validator) in stakes && stakes[ValidatorKey(del.validator)].shares > 0
  {
    var v := del.validator;
    && RebuiltValidator(t, v, k + 1)
    && t.infos == s.infos[(v, del.delegator) := Info(k + 1, StakeTruncated(del.shares, stakes[ValidatorKey(v)]),
      height)]
    && t.slashes == s.slashes && t.balance == s.balance && t.pool == s.pool
    && t.outstanding == s.outstanding && t.commission == s.commission
    && t.current == s.current[v := Current(ZERO, k + 2)]
    && (forall q: (Addr, nat) :: q.0 != v ==>
          (q in t.history <==> q in s.history) && (q in s.history ==> t.history[q] == s.history[q]))
  }

  /** Both hooks on a rebuilt validator: one more delegation, and neither reference-count guard fires. */
  lemma RebuildRebuilt(s: State, stakes: map<Key, Stake>, del: Delegation, k: nat, height: nat)
    requires RebuiltValidator(s, del.validator, k)
    requires ValidatorKey(del.validator) in stakes && stakes[ValidatorKey(del.validator)].shares > 0
    ensures var r := RebuildDelegation(s, stakes, del, height);
      r.status.Done? && AddsDelegation(s, r.state, stakes, del, k, height)
  {
    var v, stake := del.validator, stakes[ValidatorKey(del.validator)];
    IncrementRebuilt(s, v, k, stake.tokens);
    var ended := IncrementPeriod(s, v, stake.tokens).state;
    assert CurrentOf(ended, v).period == k + 2;
    var r := StartDelegation(ended, del, stake, height);
    forall p: nat
      ensures ((v, p) in r.state.history <==> LivePeriod(k + 1, p)) &&
        (LivePeriod(k + 1, p) ==> r.state.history[(v, p)] == RebuiltRecord(k + 1, p))
    {
      assert (v, p) in s.history <==> LivePeriod(k, p);
    }
  }

  lemma CountNext(dels: seq<Delegation>, i: nat, v: Addr)
    requires i < |dels|
    ensures CountFor(dels[..i + 1], v) == CountFor(dels[..i], v) + if dels[i].validator == v then 1 else 0
  {
    assert dels[..i + 1][..i] == dels[..i];
  }

  lemma RebuildStepInfos(s: State, t: State, stakes: map<Key, Stake>, dels: seq<Delegation>, i: nat, height: nat)
    requires Distinct(dels) && i < |dels| && Served(stakes, dels, i)
    requires RebuiltInfos(s, stakes, dels, i, height)
    requires t.infos == s.infos[(dels[i].validator, dels[i].delegator) :=
               Info(CountFor(dels[..i], dels[i].validator) + 1,
                 StakeTruncated(dels[i].shares, stakes[ValidatorKey(dels[i].validator)]), height)]
    ensures RebuiltInfos(t, stakes, dels, i + 1, height)
  {
    CountNext(dels, i, dels[i].validator);
    forall j | 0 <= j < i + 1
      ensures Served(stakes, dels, j) && (dels[j].validator, dels[j].delegator) in t.infos &&
              t.infos[(dels[j].validator, dels[j].delegator)] == RebuiltInfo(stakes, dels, j, height)
    {
      if j < i { assert Served(stakes, dels, j); }
    }
  }

  /** The description survives one more delegation. */
  lemma RebuildStep(s: State, stakes: map<Key, Stake>, order: seq<Addr>, dels: seq<Delegation>, i: nat, height: nat)
    requires ListsValidators(order, stakes) && Distinct(dels) && i < |dels|
    requires Rebuilt(s, stakes, order, dels, i, height) && Served(stakes, dels, i)
    ensures var r := RebuildDelegation(s, stakes, dels[i], height);
      && r.status.Done?
      && Rebuilt(r.state, stakes, order, dels, i + 1, height)
      && SameFunds(s, r.state)
      && r.state.infos.Keys == s.infos.Keys + {(dels[i].validator, dels[i].delegator)}
  {
    var del, v := dels[i], dels[i].validator;
    assert v in order;
    RebuildRebuilt(s, stakes, del, CountFor(dels[..i], v), height);
    var t := RebuildDelegation(s, stakes, del, height).state;
    RebuildStepState(s, t, stakes, order, dels, i, height);
  }

  lemma RebuildStepState(s: State, t: State, stakes: map<Key, Stake>, order: seq<Addr>, dels: seq<Delegation>, i: nat,
      height: nat)
    requires Distinct(dels) && i < |dels| && dels[i].validator in order
    requires Rebuilt(s, stakes, order, dels, i, height) && Served(stakes, dels, i)
    requires AddsDelegation(s, t, stakes, dels[i], CountFor(dels[..i], dels[i].validator), height)
    ensures Rebuilt(t, stakes, order, dels, i + 1, height)
    ensures SameFunds(s, t)
    ensures t.infos.Keys == s.infos.Keys + {(dels[i].validator, dels[i].delegator)}
  {
    RebuildStepInfos(s, t, stakes, dels, i, height);
    RebuildStepValidators(s, t, order, dels, i);
    assert RebuiltValidator(s, dels[i].validator, CountFor(dels[..i], dels[i].validator));
  }

  lemma RebuildStepValidators(s: State, t: State, order: seq<Addr>, dels: seq<Delegation>, i: nat)
    requires i < |dels| && dels[i].validator in order
    requires forall v: Addr :: v in order ==> RebuiltValidator(s, v, CountFor(dels[..i], v))
    requires forall k :: k in s.history ==> k.0 in order
    requires RebuiltValidator(t, dels[i].validator, CountFor(dels[..i], dels[i].validator) + 1)
    requires t.outstanding == s.outstanding && t.commission == s.commission
    requires t.current == s.current[dels[i].validator := Current(ZERO, CountFor(dels[..i], dels[i].validator) + 2)]
    requires forall q: (Addr, nat) :: q.0 != dels[i].validator ==>
      (q in t.history <==> q in s.history) && (q in s.history ==> t.history[q] == s.history[q])
    ensures forall v: Addr :: v in order ==> RebuiltValidator(t, v, CountFor(dels[..i + 1], v))
    ensures forall k :: k in t.history ==> k.0 in order
  {
    var v := dels[i].validator;
    forall w: Addr | w in order ensures RebuiltValidator(t, w, CountFor(dels[..i + 1], w)) {
      CountNext(dels, i, w);
      if w != v { OthersStayRebuilt(s, t, v, w, CountFor(dels[..i], w), CountFor(dels[..i], v)); }
    }
  }

  lemma OthersStayRebuilt(s: State, t: State, v: Addr, w: Addr, k: nat, n: nat)
    requires w != v && RebuiltValidator(s, w, k)
    requires t.outstanding == s.outstanding && t.commission == s.commission &&
      t.current == s.current[v := Current(ZERO, n + 2)]
    requires forall q: (Addr, nat) :: q.0 != v ==>
      (q in t.history <==> q in s.history) && (q in s.history ==> t.history[q] == s.history[q])
    ensures RebuiltValidator(t, w, k)
  {
    forall p: nat
      ensures ((w, p) in t.history <==> (w, p) in s.history) &&
        ((w, p) in s.history ==> t.history[(w, p)] == s.history[(w, p)])
    {
      assert (w, p).0 != v;
    }
    RebuiltElsewhere(s, t, w, k);
  }

  lemma RebuiltElsewhere(s: State, t: State, v: Addr, k: nat)
    requires RebuiltValidator(s, v, k)
    requires v in t.current && t.current[v] == s.current[v] && t.outstanding == s.outstanding &&
      t.commission == s.commission
    requires forall p: nat ::
      ((v, p) in t.history <==> (v, p) in s.history) && ((v, p) in s.history ==> t.history[(v, p)] == s.history[(v, p)])
    ensures RebuiltValidator(t, v, k)
  {
  }

  /** The state after a completed pass over the first i delegations. */
  ghost predicate PassCompleted(s: State, t: State, stakes: map<Key, Stake>, order: seq<Addr>, dels: seq<Delegation>,
      i: nat, height: nat)
    requires i <= |dels|
  {
    && Rebuilt(t, stakes, order, dels, i, height)
    && SameFunds(s, t)
    && t.infos.Keys == s.infos.Keys + InfoKeys(dels[..i])
  }

  ghost predicate AllKnown(stakes: map<Key, Stake>, dels: seq<Delegation>)
  {
    forall del :: del in dels ==> ValidatorKey(del.validator) in stakes
  }

  /** The delegations pass completes exactly when every delegation's validator exists. */
  lemma {:induction false} RebuildPass(s: State, stakes: map<Key, Stake>, order: seq<Addr>, dels: seq<Delegation>,
      i: nat, height: nat)
    requires ListsValidators(order, stakes) && Distinct(dels) && i <= |dels|
    requires Rebuilt(s, stakes, order, dels, 0, height)
    requires forall j :: 0 <= j < |dels| && ValidatorKey(dels[j].validator) in stakes ==> Served(stakes, dels, j)
    ensures PassOutcome(s, RebuildDelegations(s, stakes, dels[..i], height), stakes, order, dels, i, height)
    decreases i
  {
    if i > 0 {
      RebuildPass(s, stakes, order, dels, i - 1, height);
      PassNext(s, RebuildDelegations(s, stakes, dels[..i - 1], height), stakes, order, dels, i - 1, height);
      RebuildNext(s, stakes, dels, i - 1, height);
    } else {
      assert dels[..0] == [];
    }
  }

  /** After i delegations the pass has completed, or panicked if one of their validators is missing. */
  ghost predicate PassOutcome(s: State, r: Step, stakes: map<Key, Stake>, order: seq<Addr>, dels: seq<Delegation>,
      i: nat, height: nat)
    requires i <= |dels|
  {
    && (AllKnown(stakes, dels[..i]) ==> r.status.Done? && PassCompleted(s, r.state, stakes, order, dels, i, height))
    && (!AllKnown(stakes, dels[..i]) ==> r.status.Panicked?)
  }

  lemma PassNext(s: State, before: Step, stakes: map<Key, Stake>, order: seq<Addr>, dels: seq<Delegation>, i: nat,
      height: nat)
    requires ListsValidators(order, stakes) && Distinct(dels) && i < |dels|
    requires forall j :: 0 <= j < |dels| && ValidatorKey(dels[j].validator) in stakes ==> Served(stakes, dels, j)
    requires PassOutcome(s, before, stakes, order, dels, i, height)
    ensures var next := if before.status.Panicked? then before
                        else RebuildDelegation(before.state, stakes, dels[i], height);
      PassOutcome(s, next, stakes, order, dels, i + 1, height)
  {
    KnownNext(stakes, dels, i);
    if AllKnown(stakes, dels[..i + 1]) {
      PassStep(s, before.state, stakes, order, dels, i, height);
    }
  }

  lemma RebuildNext(s: State, stakes: map<Key, Stake>, dels: seq<Delegation>, i: nat, height: nat)
    requires i < |dels|
    ensures var before := RebuildDelegations(s, stakes, dels[..i], height);
      RebuildDelegations(s, stakes, dels[..i + 1], height) ==
        if before.status.Panicked? then before else RebuildDelegation(before.state, stakes, dels[i], height)
  {
    assert dels[..i + 1][..i] == dels[..i];
  }

  lemma KnownNext(stakes: map<Key, Stake>, dels: seq<Delegation>, i: nat)
    requires i < |dels|
    ensures AllKnown(stakes, dels[..i + 1]) <==>
      AllKnown(stakes, dels[..i]) && ValidatorKey(dels[i].validator) in stakes
  {
    assert dels[..i + 1] == dels[..i] + [dels[i]];
  }

  lemma PassStep(s: State, t: State, stakes: map<Key, Stake>, order: seq<Addr>, dels: seq<Delegation>, i: nat,
      height: nat)
    requires ListsValidators(order, stakes) && Distinct(dels) && i < |dels|
    requires PassCompleted(s, t, stakes, order, dels, i, height) && Served(stakes, dels, i)
    ensures var r := RebuildDelegation(t, stakes, dels[i], height);
      r.status.Done? && PassCompleted(s, r.state, stakes, order, dels, i + 1, height)
  {
    RebuildStep(t, stakes, order, dels, i, height);
    InfoKeysNext(dels, i);
  }

  lemma InfoKeysNext(dels: seq<Delegation>, i: nat)
    requires i < |dels|
    ensures InfoKeys(dels[..i + 1]) == InfoKeys(dels[..i]) + {(dels[i].validator, dels[i].delegator)}
  {
    assert dels[..i + 1] == dels[..i] + [dels[i]];
  }
}
