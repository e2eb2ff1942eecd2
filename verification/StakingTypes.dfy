/** Staking records and the byte keys they are stored under. */
module StakingTypes {
  import opened Bytes

  /** A raw address. */
  datatype Addr = Addr(raw: Key)

  datatype BondStatus = Unbonded | Unbonding | Bonded

  datatype Validator = Validator(
    operator: Addr,
    consAddr: Addr,
    status: BondStatus,
    tokens: nat,
    shares: nat,              // scaled by 10^18
    jailed: bool,
    unbondingHeight: int,
    unbondingTime: int,
    moniker: string)

  datatype Delegation = Delegation(delegator: Addr, validator: Addr, shares: nat)

  /** The part of a validator that fee distribution reads. */
  datatype Stake = Stake(tokens: nat, shares: nat)

  const VALIDATORS: byte := 0x21

  /** sdk.DefaultPowerReduction: the tokens that make one unit of consensus power. */
  const POWER_REDUCTION: nat := 1_000_000

  /** One length byte, then the address; a length above 255 wraps here. */
  function LengthPrefixed(a: Addr): Key
  {
    [(|a.raw| % 256) as byte] + a.raw
  }

  function ValidatorKey(a: Addr): Key
  {
    [VALIDATORS] + LengthPrefixed(a)
  }

  /** AddressFromValidatorsKey drops the prefix byte and the length byte. */
  function AddressFromKey(k: Key): Addr
    requires |k| >= 2
  {
    Addr(k[2..])
  }

  lemma KeyRoundTrip(a: Addr)
    ensures |ValidatorKey(a)| == |a.raw| + 2
    ensures AddressFromKey(ValidatorKey(a)) == a
  {
    assert ValidatorKey(a) == [VALIDATORS, (|a.raw| % 256) as byte] + a.raw;
  }

  ghost predicate KeyedAt(validators: map<Key, Validator>, k: Key)
    requires k in validators
  {
    k == ValidatorKey(validators[k].operator)
  }

  /** Every validator is stored under the key of its own operator. */
  ghost predicate KeyedByOperator(validators: map<Key, Validator>)
  {
    forall k {:trigger KeyedAt(validators, k)} :: k in validators ==> KeyedAt(validators, k)
  }

  function Stakes(validators: map<Key, Validator>): map<Key, Stake>
  {
    map k | k in validators :: Stake(validators[k].tokens, validators[k].shares)
  }

  /** No two delegations share delegator and validator. */
  ghost predicate Distinct(dels: seq<Delegation>)
  {
    forall i, j :: 0 <= i < j < |dels| ==>
      (dels[i].delegator, dels[i].validator) != (dels[j].delegator, dels[j].validator)
  }
}
