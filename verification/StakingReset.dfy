/**
 The staking and slashing records that the zero-height preparation rewrites, what each becomes,
 and how a loop that writes every entry of a store under its own iterator ends.
 */
module StakingReset {
  import opened Wrappers
  import opened Bytes
  import opened StakingTypes
  import opened ZeroHeight

  datatype Entry = Entry(creationHeight: int, completionTime: int, initialBalance: nat, amount: nat, id: nat)

  datatype Redelegation = Redelegation(delegator: Addr, source: Addr, destination: Addr, entries: seq<Entry>)

  datatype Unbonding = Unbonding(delegator: Addr, validator: Addr, entries: seq<Entry>)

  datatype SigningInfo = SigningInfo(
    address: Addr, startHeight: int, indexOffset: int, jailedUntil: int, tombstoned: bool, missedBlocks: int)

  /** The address codec, an arbitrary pair of functions. */
  datatype Codec = Codec(encode: Addr -> string, decode: string -> Option<Addr>)

  function RedelegationKey(r: Redelegation): Key
  {
    [0x34] + LengthPrefixed(r.delegator) + LengthPrefixed(r.source) + LengthPrefixed(r.destination)
  }

  function BySourceKey(r: Redelegation): Key
  {
    [0x35] + LengthPrefixed(r.source) + LengthPrefixed(r.delegator) + LengthPrefixed(r.destination)
  }

  function ByDestinationKey(r: Redelegation): Key
  {
    [0x36] + LengthPrefixed(r.destination) + LengthPrefixed(r.delegator) + LengthPrefixed(r.source)
  }

  function UnbondingKey(u: Unbonding): Key
  {
    [0x32] + LengthPrefixed(u.delegator) + LengthPrefixed(u.validator)
  }

  function ByValidatorKey(u: Unbonding): Key
  {
    [0x33] + LengthPrefixed(u.validator) + LengthPrefixed(u.delegator)
  }

  // ---- What each record becomes ----

  /** Entries keep their number, order and every field but the creation height. */
  function ResetEntries(entries: seq<Entry>): (r: seq<Entry>)
    ensures |r| == |entries|
    ensures forall i :: 0 <= i < |r| ==> r[i] == entries[i].(creationHeight := 0)
  {
    if entries == [] then [] else [entries[0].(creationHeight := 0)] + ResetEntries(entries[1..])
  }

  function ResetRedelegation(r: Redelegation): Redelegation
  {
    r.(entries := ResetEntries(r.entries))
  }

  function ResetUnbonding(u: Unbonding): Unbonding
  {
    u.(entries := ResetEntries(u.entries))
  }

  function ResetSigningInfo(info: SigningInfo): SigningInfo
  {
    info.(startHeight := 0)
  }

  /** A non-empty allow-list jails every validator whose rendered address it lacks; an empty one jails nobody. */
  function ResetValidator(v: Validator, allowed: seq<string>, codec: Codec): Validator
  {
    v.(unbondingHeight := 0, jailed := v.jailed || (|allowed| > 0 && codec.encode(v.operator) !in allowed))
  }

  function MapValues<V>(m: map<Key, V>, f: V -> V): map<Key, V>
  {
    map k | k in m :: f(m[k])
  }

  function Resetter(allowed: seq<string>, codec: Codec): Validator -> Validator
  {
    v => ResetValidator(v, allowed, codec)
  }

  function ResetValidators(m: map<Key, Validator>, allowed: seq<string>, codec: Codec): map<Key, Validator>
  {
    MapValues(m, Resetter(allowed, codec))
  }

  /** The staking and slashing stores that the preparation rewrites. */
  datatype Records = Records(
    validators: map<Key, Validator>,
    redelegations: map<Key, Redelegation>,
    unbondings: map<Key, Unbonding>,
    signingInfos: map<Key, SigningInfo>)

  /** All of them after the preparation; the signing infos are missed when the validator iterator fails to close. */
  function ResetRecords(r: Records, allowed: seq<string>, codec: Codec, closeFails: bool): Records
  {
    Records(ResetValidators(r.validators, allowed, codec),
            MapValues(r.redelegations, ResetRedelegation),
            MapValues(r.unbondings, ResetUnbonding),
            if closeFails then r.signingInfos else MapValues(r.signingInfos, ResetSigningInfo))
  }

  // ---- What the passes promise, field by field ----

  /**
   A validator ends jailed exactly when it was jailed, or the allow-list is not empty and lacks its
   address; its unbonding height is zero; nothing else of it has changed.
   */
  ghost predicate JailedExactly(before: map<Key, Validator>, after: map<Key, Validator>, allowed: seq<string>,
      codec: Codec)
  {
    && after.Keys == before.Keys
    && forall k :: k in before ==>
         && (after[k].jailed <==> before[k].jailed || (allowed != [] && codec.encode(before[k].operator) !in allowed))
         && after[k].unbondingHeight == 0
         && after[k].(jailed := before[k].jailed, unbondingHeight := before[k].unbondingHeight) == before[k]
  }

  /** The entries are the same, in the same order, but that they were created at height zero. */
  ghost predicate HeightsZeroed(before: seq<Entry>, after: seq<Entry>)
  {
    && |after| == |before|
    && forall i :: 0 <= i < |after| ==>
         && after[i].creationHeight == 0
         && after[i].completionTime == before[i].completionTime && after[i].id == before[i].id
         && after[i].initialBalance == before[i].initialBalance && after[i].amount == before[i].amount
  }

  ghost predicate RedelegationsZeroed(before: map<Key, Redelegation>, after: map<Key, Redelegation>)
  {
    && after.Keys == before.Keys
    && forall k :: k in before ==>
         HeightsZeroed(before[k].entries, after[k].entries) && after[k].(entries := before[k].entries) == before[k]
  }

  ghost predicate UnbondingsZeroed(before: map<Key, Unbonding>, after: map<Key, Unbonding>)
  {
    && after.Keys == before.Keys
    && forall k :: k in before ==>
         HeightsZeroed(before[k].entries, after[k].entries) && after[k].(entries := before[k].entries) == before[k]
  }

  ghost predicate SigningInfosZeroed(before: map<Key, SigningInfo>, after: map<Key, SigningInfo>)
  {
    && after.Keys == before.Keys
    && forall k :: k in before ==>
         after[k].startHeight == 0 && after[k].(startHeight := before[k].startHeight) == before[k]
  }

  /** All four stores; the signing infos stay when the validator iterator fails to close. */
  ghost predicate RecordsZeroed(before: Records, after: Records, allowed: seq<string>, codec: Codec, closeFails: bool)
  {
    && JailedExactly(before.validators, after.validators, allowed, codec)
    && RedelegationsZeroed(before.redelegations, after.redelegations)
    && UnbondingsZeroed(before.unbondings, after.unbondings)
    && if closeFails then after.signingInfos == before.signingInfos
       else SigningInfosZeroed(before.signingInfos, after.signingInfos)
  }

  lemma ValidatorsResetExactly(m: map<Key, Validator>, allowed: seq<string>, codec: Codec)
    ensures JailedExactly(m, ResetValidators(m, allowed, codec), allowed, codec)
  {
  }

  lemma RedelegationsResetExactly(m: map<Key, Redelegation>)
    ensures RedelegationsZeroed(m, MapValues(m, ResetRedelegation))
  {
  }

  lemma UnbondingsResetExactly(m: map<Key, Unbonding>)
    ensures UnbondingsZeroed(m, MapValues(m, ResetUnbonding))
  {
  }

  lemma SigningInfosResetExactly(m: map<Key, SigningInfo>)
    ensures SigningInfosZeroed(m, MapValues(m, ResetSigningInfo))
  {
  }

  lemma RecordsResetExactly(r: Records, allowed: seq<string>, codec: Codec, closeFails: bool)
    ensures RecordsZeroed(r, ResetRecords(r, allowed, codec, closeFails), allowed, codec, closeFails)
  {
    ValidatorsResetExactly(r.validators, allowed, codec);
    RedelegationsResetExactly(r.redelegations);
    UnbondingsResetExactly(r.unbondings);
    SigningInfosResetExactly(r.signingInfos);
  }

  // ---- Rewriting every entry under a live iterator ----

  /** The first i visited entries of `start` have been rewritten by f, the others not. */
  ghost predicate Rewritten<V>(now: map<Key, V>, start: map<Key, V>, visit: seq<Key>, i: nat, f: V -> V)
    requires i <= |visit|
  {
    && now.Keys == start.Keys
    && forall k :: k in start ==> now[k] == if k in visit[..i] then f(start[k]) else start[k]
  }

  /** The cursor of a loop that has visited i keys of the unchanged key set. */
  ghost predicate CursorAt(pos: Option<Key>, visit: seq<Key>, i: nat)
  {
    i <= |visit| && pos == if i < |visit| then Some(visit[i]) else None
  }

  lemma CursorOpens(reverse: bool, keys: set<Key>)
    ensures CursorAt(First(reverse, keys), Visit(reverse, keys), 0)
  {
    VisitsOnceInOrder(reverse, keys);
    if keys != {} { NextVisit(reverse, keys, 0); }
  }

  lemma CursorMoves(reverse: bool, keys: set<Key>, pos: Option<Key>, i: nat)
    requires CursorAt(pos, Visit(reverse, keys), i) && pos.Some?
    ensures pos.value in keys
    ensures CursorAt(Next(reverse, keys, pos.value), Visit(reverse, keys), i + 1)
  {
    VisitsOnceInOrder(reverse, keys);
    assert pos.value in Visit(reverse, keys);
    NextVisit(reverse, keys, i);
  }

  /** Rewriting the entry under the cursor: it is still as it was at the start, because no key is visited twice. */
  lemma RewriteOne<V>(now: map<Key, V>, start: map<Key, V>, reverse: bool, i: nat, f: V -> V)
    requires var visit := Visit(reverse, start.Keys);
      i < |visit| && Rewritten(now, start, visit, i, f)
    ensures var visit := Visit(reverse, start.Keys);
      && visit[i] in now && now[visit[i]] == start[visit[i]]
      && Rewritten(now[visit[i] := f(start[visit[i]])], start, visit, i + 1, f)
  {
    VisitIsNew(reverse, start.Keys, i);
  }

  /** No key is visited twice. */
  lemma VisitIsNew(reverse: bool, keys: set<Key>, i: nat)
    requires i < |Visit(reverse, keys)|
    ensures var visit := Visit(reverse, keys);
      && visit[i] in keys && visit[i] !in visit[..i]
      && visit[..i + 1] == visit[..i] + [visit[i]]
  {
    VisitsOnceInOrder(reverse, keys);
    assert Visit(reverse, keys)[i] in Visit(reverse, keys);
  }

  /** The cursor of a rewriting loop stands on a live entry that has not been rewritten yet. */
  lemma CursorStands<V>(now: map<Key, V>, start: map<Key, V>, reverse: bool, pos: Option<Key>, i: nat, f: V -> V)
    requires CursorAt(pos, Visit(reverse, start.Keys), i) && pos.Some?
    requires Rewritten(now, start, Visit(reverse, start.Keys), i, f)
    ensures pos.value in start && pos.value in now && now[pos.value] == start[pos.value]
  {
    RewriteOne(now, start, reverse, i, f);
  }

  /** One turn of a rewriting loop. */
  lemma CursorAdvances<V>(now: map<Key, V>, later: map<Key, V>, start: map<Key, V>, reverse: bool, pos: Option<Key>,
      i: nat, f: V -> V)
    requires CursorAt(pos, Visit(reverse, start.Keys), i) && pos.Some?
    requires Rewritten(now, start, Visit(reverse, start.Keys), i, f)
    requires pos.value in now && later == now[pos.value := f(now[pos.value])]
    ensures i < |Visit(reverse, start.Keys)|
    ensures Visit(reverse, start.Keys)[..i + 1] == Visit(reverse, start.Keys)[..i] + [pos.value]
    ensures Rewritten(later, start, Visit(reverse, start.Keys), i + 1, f)
    ensures CursorAt(Next(reverse, later.Keys, pos.value), Visit(reverse, start.Keys), i + 1)
  {
    RewriteOne(now, start, reverse, i, f);
    VisitIsNew(reverse, start.Keys, i);
    CursorMoves(reverse, start.Keys, pos, i);
  }

  lemma RewrittenAll<V>(now: map<Key, V>, start: map<Key, V>, reverse: bool, f: V -> V)
    requires var visit := Visit(reverse, start.Keys); Rewritten(now, start, visit, |visit|, f)
    ensures now == MapValues(start, f)
  {
    var visit := Visit(reverse, start.Keys);
    AllVisited(reverse, start.Keys);
    assert visit[..|visit|] == visit;
    assert now.Keys == MapValues(start, f).Keys;
  }

  lemma AllVisited(reverse: bool, keys: set<Key>)
    ensures forall k :: k in keys ==> k in Visit(reverse, keys)
  {
    VisitsOnceInOrder(reverse, keys);
  }

  // ---- Consequences ----

  lemma ValidatorsResetTwice(m: map<Key, Validator>, allowed: seq<string>, codec: Codec)
    ensures ResetValidators(ResetValidators(m, allowed, codec), allowed, codec) == ResetValidators(m, allowed, codec)
  {
  }

  lemma RedelegationsResetTwice(m: map<Key, Redelegation>)
    ensures MapValues(MapValues(m, ResetRedelegation), ResetRedelegation) == MapValues(m, ResetRedelegation)
  {
    forall k | k in m ensures ResetRedelegation(ResetRedelegation(m[k])) == ResetRedelegation(m[k]) {
      EntriesResetTwice(m[k].entries);
    }
  }

  lemma UnbondingsResetTwice(m: map<Key, Unbonding>)
    ensures MapValues(MapValues(m, ResetUnbonding), ResetUnbonding) == MapValues(m, ResetUnbonding)
  {
    forall k | k in m ensures ResetUnbonding(ResetUnbonding(m[k])) == ResetUnbonding(m[k]) {
      EntriesResetTwice(m[k].entries);
    }
  }

  lemma SigningInfosResetTwice(m: map<Key, SigningInfo>)
    ensures MapValues(MapValues(m, ResetSigningInfo), ResetSigningInfo) == MapValues(m, ResetSigningInfo)
  {
  }

  lemma EntriesResetTwice(entries: seq<Entry>)
    ensures ResetEntries(ResetEntries(entries)) == ResetEntries(entries)
  {
    var once := ResetEntries(entries);
    var twice := ResetEntries(once);
    forall i | 0 <= i < |entries| ensures twice[i] == once[i] {
      assert twice[i] == once[i].(creationHeight := 0);
    }
  }

  /** Resetting all records again, with the same allow-list, changes nothing. */
  lemma ResetIsIdempotent(r: Records, allowed: seq<string>, codec: Codec, closeFails: bool)
    ensures var once := ResetRecords(r, allowed, codec, closeFails);
      ResetRecords(once, allowed, codec, closeFails) == once
  {
    ValidatorsResetTwice(r.validators, allowed, codec);
    RedelegationsResetTwice(r.redelegations);
    UnbondingsResetTwice(r.unbondings);
    SigningInfosResetTwice(r.signingInfos);
  }

  /** Operators in the order of their store keys. */
  ghost function OperatorsAt(m: map<Key, Validator>, keys: seq<Key>): seq<Addr>
  {
    seq(|keys|, i requires 0 <= i < |keys| => if keys[i] in m then m[keys[i]].operator else Addr([]))
  }

  ghost function Order(m: map<Key, Validator>): seq<Addr>
  {
    OperatorsAt(m, Visit(false, m.Keys))
  }

  /** The forward iteration lists every validator, once. */
  lemma OrderListsValidators(m: map<Key, Validator>)
    requires KeyedByOperator(m)
    ensures ListsValidators(Order(m), Stakes(m))
    ensures |Order(m)| == |Visit(false, m.Keys)|
    ensures forall i :: 0 <= i < |Order(m)| ==>
      Visit(false, m.Keys)[i] in m && Order(m)[i] == m[Visit(false, m.Keys)[i]].operator
  {
    var keys, order := Visit(false, m.Keys), Order(m);
    VisitsOnceInOrder(false, m.Keys);
    assert forall i :: 0 <= i < |keys| ==> keys[i] in keys;
    forall i, j | 0 <= i < j < |order| ensures order[i] != order[j] {
      assert KeyedAt(m, keys[i]) && KeyedAt(m, keys[j]);
    }
    forall v: Addr ensures v in order <==> ValidatorKey(v) in Stakes(m) {
      if v in order {
        var i :| 0 <= i < |order| && order[i] == v;
        assert KeyedAt(m, keys[i]);
      }
      if ValidatorKey(v) in m {
        assert ValidatorKey(v) in keys;
        var i :| 0 <= i < |keys| && keys[i] == ValidatorKey(v);
        assert KeyedAt(m, keys[i]);
        KeyRoundTrip(v);
        KeyRoundTrip(order[i]);
        assert order[i] == v;
      }
    }
  }

  /** Jailing and resetting heights leave the stakes and the order of the validators alone. */
  lemma ResetKeepsStakes(m: map<Key, Validator>, allowed: seq<string>, codec: Codec)
    requires KeyedByOperator(m)
    ensures var n := ResetValidators(m, allowed, codec);
      KeyedByOperator(n) && Stakes(n) == Stakes(m) && Order(n) == Order(m)
  {
    var n := ResetValidators(m, allowed, codec);
    assert n.Keys == m.Keys;
    forall k | k in n ensures KeyedAt(n, k) { assert KeyedAt(m, k); }
  }
}
