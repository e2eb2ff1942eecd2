/**
 The in-place testnet takeover: the staking store is swept of every validator under live
 iterators, rebuilt around one new validator, and local accounts are funded.
 */
module Takeover {
  import opened Wrappers
  import opened Bytes
  import opened DecCoins
  import opened StakingTypes
  import opened FeeDistribution
  import opened DistrKeeper
  import opened StakingReset
  import opened ZeroHeight
  import opened Conservation
  import opened Bank
  import Text

  const LAST_POWER: byte := 0x11
  const BY_CONS_ADDR: byte := 0x22
  const BY_POWER: byte := 0x23
  const QUEUE: byte := 0x43

  const VOTING_POWER: nat := 900_000_000_000_000

  datatype Value =
    | ValidatorValue(validator: Validator)
    | OperatorValue(operator: Addr)
    | PowerValue(power: int)
    | RawValue(raw: Key)

  type Store = map<Key, Value>

  function ByConsAddrKey(v: Validator): Key
  {
    [BY_CONS_ADDR] + LengthPrefixed(v.consAddr)
  }

  function LastPowerKey(a: Addr): Key
  {
    [LAST_POWER] + LengthPrefixed(a)
  }

  /** Eight bytes, most significant first. */
  function BigEndian(n: nat, width: nat): Key
  {
    if width == 0 then [] else BigEndian(n / 256, width - 1) + [(n % 256) as byte]
  }

  function Inverted(k: Key): Key
  {
    seq(|k|, i requires 0 <= i < |k| => 255 - k[i])
  }

  function ByPowerKey(v: Validator): Key
  {
    [BY_POWER] + BigEndian(v.tokens / POWER_REDUCTION, 8) + LengthPrefixed(Addr(Inverted(v.operator.raw)))
  }

  function NewValidator(operator: Addr, consAddr: Addr): Validator
  {
    Validator(operator, consAddr, Bonded, VOTING_POWER, 10_000_000 * ONE, false, 0, 0, "Testnet Validator")
  }

  /** The live keys in the range of a prefix. */
  function Under(store: Store, prefix: Key): set<Key>
  {
    set k | k in store && InRange(k, prefix, PrefixEnd(prefix))
  }

  function Without(store: Store, prefix: Key): Store
  {
    map k | k in store && !(prefix <= k) :: store[k]
  }

  /** The store with all four validator ranges empty. */
  function Swept(store: Store): Store
  {
    Without(Without(Without(Without(store, [BY_POWER]), [LAST_POWER]), [VALIDATORS]), [QUEUE])
  }

  function Installed(store: Store, v: Validator): Store
  {
    store[ValidatorKey(v.operator) := ValidatorValue(v)]
         [ByConsAddrKey(v) := OperatorValue(v.operator)]
         [ByPowerKey(v) := OperatorValue(v.operator)]
         [LastPowerKey(v.operator) := PowerValue(0)]
  }

  // ---- The sweep ----

  /** Of the keys of `range` those at or beyond the cursor are there, the others are gone; no other key is touched. */
  ghost predicate SweptTo(now: Store, start: Store, range: set<Key>, reverse: bool, pos: Option<Key>)
  {
    && (forall k :: k in now ==> k in start && now[k] == start[k])
    && (forall k :: k in start && k !in range ==> k in now)
    && (forall k :: k in range ==> (k in now <==> pos.Some? && (k == pos.value || Before(reverse, pos.value, k))))
    && (pos.Some? ==> pos.value in range && pos.value in now)
  }

  lemma SweepOpens(start: Store, range: set<Key>, reverse: bool)
    requires forall k :: k in range ==> k in start
    ensures SweptTo(start, start, range, reverse, First(reverse, range))
  {
  }

  /** Deleting the key under the cursor and then moving the cursor over the live keys loses no key and skips none. */
  lemma SweepAdvances(now: Store, start: Store, range: set<Key>, reverse: bool, pos: Option<Key>, live: set<Key>)
    requires SweptTo(now, start, range, reverse, pos) && pos.Some?
    requires forall k :: k in live <==> k in range && k in now && k != pos.value
    ensures SweptTo(now - {pos.value}, start, range, reverse, Next(reverse, live, pos.value))
  {
    var p, next := pos.value, Next(reverse, live, pos.value);
    forall k | k in range
      ensures k in now - {p} <==> next.Some? && (k == next.value || Before(reverse, next.value, k))
    {
      if k in now && k != p {
        assert k in live && Before(reverse, p, k);
      }
      if next.Some? && (k == next.value || Before(reverse, next.value, k)) {
        if k != next.value { BeforeTransitive(reverse, p, next.value, k); }
        BeforeAsymmetric(reverse, p, k);
      }
    }
  }

  // ---- What the takeover leaves in the staking store ----

  lemma PrefixOfHead(b: byte, k: Key)
    ensures [b] <= k <==> |k| > 0 && k[0] == b
  {
  }

  lemma WithoutExact(store: Store, b: byte, k: Key)
    ensures k in Without(store, [b]) <==> k in store && !(|k| > 0 && k[0] == b)
    ensures k in Without(store, [b]) ==> Without(store, [b])[k] == store[k]
  {
    PrefixOfHead(b, k);
  }

  predicate SweptPrefix(k: Key)
  {
    |k| > 0 && (k[0] == BY_POWER || k[0] == LAST_POWER || k[0] == VALIDATORS || k[0] == QUEUE)
  }

  lemma SweptExact(store: Store, k: Key)
    ensures k in Swept(store) <==> k in store && !SweptPrefix(k)
    ensures k in Swept(store) ==> Swept(store)[k] == store[k]
  {
    var s1 := Without(store, [BY_POWER]);
    var s2 := Without(s1, [LAST_POWER]);
    var s3 := Without(s2, [VALIDATORS]);
    WithoutExact(store, BY_POWER, k);
    WithoutExact(s1, LAST_POWER, k);
    WithoutExact(s2, VALIDATORS, k);
    WithoutExact(s3, QUEUE, k);
  }

  /** The four keys of the new validator start with four different bytes. */
  lemma NewKeyHeads(v: Validator)
    ensures ValidatorKey(v.operator)[0] == VALIDATORS && ByConsAddrKey(v)[0] == BY_CONS_ADDR
    ensures ByPowerKey(v)[0] == BY_POWER && LastPowerKey(v.operator)[0] == LAST_POWER
  {
  }

  /**
   Index agreement: from any store the validators, power and last-power ranges each end up with one
   entry, all of the new operator; the queue range is empty; and outside the four ranges only the
   consensus-address entry of the new validator may differ.
   */
  lemma IndexesAgree(store: Store, v: Validator, k: Key)
    ensures var t := Installed(Swept(store), v);
      && ([VALIDATORS] <= k && k in t <==> k == ValidatorKey(v.operator))
      && ([BY_POWER] <= k && k in t <==> k == ByPowerKey(v))
      && ([LAST_POWER] <= k && k in t <==> k == LastPowerKey(v.operator))
      && !([QUEUE] <= k && k in t)
      && t[ValidatorKey(v.operator)] == ValidatorValue(v)
      && t[ByPowerKey(v)] == OperatorValue(v.operator)
      && t[LastPowerKey(v.operator)] == PowerValue(0)
      && t[ByConsAddrKey(v)] == OperatorValue(v.operator)
      && (!SweptPrefix(k) && k != ByConsAddrKey(v) ==> (k in t <==> k in store) && (k in t ==> t[k] == store[k]))
  {
    NewKeyHeads(v);
    SweptExact(store, k);
    PrefixOfHead(VALIDATORS, k);
    PrefixOfHead(BY_POWER, k);
    PrefixOfHead(LAST_POWER, k);
    PrefixOfHead(QUEUE, k);
  }

  /**
   What is found under which bytes: a bonded validator with 900 million units of power, whose index
   entries name it, and no power at the last block.
   */
  lemma EntriesOfTakeover(store: Store, operator: Addr, consAddr: Addr)
    ensures var t := Installed(Swept(store), NewValidator(operator, consAddr));
      var own, cons := LengthPrefixed(operator), LengthPrefixed(consAddr);
      && [0x21] + own in t && [0x22] + cons in t && [0x11] + own in t
      && t[[0x22] + cons] == OperatorValue(operator) && t[[0x11] + own] == PowerValue(0)
      && t[[0x21] + own].ValidatorValue?
      && var v := t[[0x21] + own].validator;
      && v.operator == operator && v.consAddr == consAddr && v.status == Bonded && !v.jailed
      && v.tokens == 900_000_000_000_000 && v.shares == 10_000_000_000_000_000_000_000_000
      && v.unbondingHeight == 0 && v.moniker == "Testnet Validator"
  {
    NewKeyHeads(NewValidator(operator, consAddr));
    var v := NewValidator(operator, consAddr);
    assert [0x21] + LengthPrefixed(operator) == ValidatorKey(operator);
    assert [0x22] + LengthPrefixed(consAddr) == ByConsAddrKey(v);
    assert [0x11] + LengthPrefixed(operator) == LastPowerKey(operator);
  }

  // ---- The power index orders by power ----

  lemma {:induction false} LessAppend(a: Key, b: Key, x: Key, y: Key)
    requires |a| == |b| && Less(a, b)
    ensures Less(a + x, b + y)
  {
    if a[0] == b[0] {
      LessAppend(a[1..], b[1..], x, y);
      assert (a + x)[1..] == a[1..] + x && (b + y)[1..] == b[1..] + y;
    }
  }

  lemma {:induction false} LessAfter(p: Key, x: Key, y: Key)
    requires Less(x, y)
    ensures Less(p + x, p + y)
  {
    if p == [] {
      assert p + x == x && p + y == y;
    } else {
      LessAfter(p[1..], x, y);
      assert (p + x)[1..] == p[1..] + x && (p + y)[1..] == p[1..] + y;
    }
  }

  /** 256 to the given power. */
  ghost function Capacity(width: nat): nat
  {
    if width == 0 then 1 else 256 * Capacity(width - 1)
  }

  lemma {:induction false} BigEndianOrders(m: nat, n: nat, width: nat)
    requires m < n < Capacity(width)
    ensures |BigEndian(m, width)| == |BigEndian(n, width)| && Less(BigEndian(m, width), BigEndian(n, width))
    decreases width
  {
    BigEndianLength(m, width);
    BigEndianLength(n, width);
    var x, y: Key := [(m % 256) as byte], [(n % 256) as byte];
    if m / 256 < n / 256 {
      BigEndianOrders(m / 256, n / 256, width - 1);
      LessAppend(BigEndian(m / 256, width - 1), BigEndian(n / 256, width - 1), x, y);
    } else {
      assert m / 256 == n / 256 && m % 256 < n % 256;
      assert Less(x, y);
      LessAfter(BigEndian(m / 256, width - 1), x, y);
    }
  }

  lemma {:induction false} BigEndianLength(n: nat, width: nat)
    ensures |BigEndian(n, width)| == width
    decreases width
  {
    if width > 0 { BigEndianLength(n / 256, width - 1); }
  }

  lemma {:induction false} InvertedOrders(a: Key, b: Key)
    requires |a| == |b| && Less(b, a)
    ensures Less(Inverted(a), Inverted(b))
  {
    assert Inverted(a)[0] == 255 - a[0] && Inverted(b)[0] == 255 - b[0];
    if a[0] == b[0] {
      InvertedOrders(a[1..], b[1..]);
      assert Inverted(a)[1..] == Inverted(a[1..]) && Inverted(b)[1..] == Inverted(b[1..]);
    }
  }

  /**
   In the power index less power comes first; of equal powers the larger operator address does, among
   addresses of the same length. The reverse iteration so starts at the highest power.
   */
  lemma PowerKeysOrder(v: Validator, w: Validator)
    requires v.tokens / 1_000_000 < Capacity(8) && w.tokens / 1_000_000 < Capacity(8)
    requires v.tokens / 1_000_000 < w.tokens / 1_000_000 ||
      (v.tokens / 1_000_000 == w.tokens / 1_000_000 &&
       |v.operator.raw| == |w.operator.raw| && Less(w.operator.raw, v.operator.raw))
    ensures Less(ByPowerKey(v), ByPowerKey(w))
  {
    var m, n := v.tokens / 1_000_000, w.tokens / 1_000_000;
    var x, y := LengthPrefixed(Addr(Inverted(v.operator.raw))), LengthPrefixed(Addr(Inverted(w.operator.raw)));
    var head: Key := [BY_POWER];
    assert ByPowerKey(v) == head + (BigEndian(m, 8) + x) && ByPowerKey(w) == head + (BigEndian(n, 8) + y);
    if m < n {
      BigEndianOrders(m, n, 8);
      LessAppend(BigEndian(m, 8), BigEndian(n, 8), x, y);
    } else {
      InvertedOrders(v.operator.raw, w.operator.raw);
      assert x[1..] == Inverted(v.operator.raw) && y[1..] == Inverted(w.operator.raw);
      LessAfter(BigEndian(m, 8), x, y);
    }
    LessAfter(head, BigEndian(m, 8) + x, BigEndian(n, 8) + y);
  }

  class TestnetApp {
    var store: Store
    const distr: Keeper
    var pubKeys: map<Addr, Key>               // consensus keys known to slashing, by their address
    var signingInfos: map<Addr, SigningInfo>
    var books: Books
    var lastBlockHeight: int

    constructor (store: Store, distr: Keeper, pubKeys: map<Addr, Key>, signingInfos: map<Addr, SigningInfo>,
      books: Books, lastBlockHeight: int)
      ensures this.store == store && this.distr == distr && this.pubKeys == pubKeys && this.signingInfos == signingInfos
      ensures this.books == books && this.lastBlockHeight == lastBlockHeight
    {
      this.store, this.distr, this.pubKeys, this.signingInfos := store, distr, pubKeys, signingInfos;
      this.books, this.lastBlockHeight := books, lastBlockHeight;
    }

    /** One of the delete loops: the iterator stays open while the key it stands on is deleted. */
    method DeleteUnder(prefix: Key, reverse: bool)
      modifies this`store
      ensures store == Without(old(store), prefix)
    {
      ghost var start, range := store, Under(store, prefix);
      SweepOpens(start, range, reverse);
      var pos := First(reverse, Under(store, prefix));
      while pos.Some?
        invariant SweptTo(store, start, range, reverse, pos)
        decreases |store|
      {
        ghost var before := store;
        store := store - {pos.value};
        assert |before.Keys - {pos.value}| == |before.Keys| - 1 && store.Keys == before.Keys - {pos.value};
        SweepAdvances(before, start, range, reverse, pos, Under(store, prefix));
        pos := Next(reverse, Under(store, prefix), pos.value);
      }
      forall k ensures k in range <==> k in start && prefix <= k { PrefixRangeIsExact(prefix, k); }
    }

    method SetValidator(v: Validator)
      modifies this`store
      ensures store == old(store)[ValidatorKey(v.operator) := ValidatorValue(v)]
    {
      store := store[ValidatorKey(v.operator) := ValidatorValue(v)];
    }

    method SetValidatorByConsAddr(v: Validator)
      modifies this`store
      ensures store == old(store)[ByConsAddrKey(v) := OperatorValue(v.operator)]
    {
      store := store[ByConsAddrKey(v) := OperatorValue(v.operator)];
    }

    /** A jailed validator is left out of the power index. */
    method SetValidatorByPowerIndex(v: Validator)
      modifies this`store
      ensures store == if v.jailed then old(store) else old(store)[ByPowerKey(v) := OperatorValue(v.operator)]
    {
      if !v.jailed {
        store := store[ByPowerKey(v) := OperatorValue(v.operator)];
      }
    }

    method SetLastValidatorPower(a: Addr, power: int)
      modifies this`store
      ensures store == old(store)[LastPowerKey(a) := PowerValue(power)]
    {
      store := store[LastPowerKey(a) := PowerValue(power)];
    }

    /** The staking part. */
    method ReplaceValidators(v: Validator)
      requires !v.jailed
      modifies this`store
      ensures store == Installed(Swept(old(store)), v)
    {
      DeleteUnder([BY_POWER], true);
      DeleteUnder([LAST_POWER], false);
      DeleteUnder([VALIDATORS], false);
      DeleteUnder([QUEUE], false);
      SetValidator(v);
      SetValidatorByConsAddr(v);
      SetValidatorByPowerIndex(v);
      SetLastValidatorPower(v.operator, 0);
    }

    /** The creation hooks of distribution and slashing, and then the same four distribution records set once more. */
    method InitRecords(a: Addr, pubKey: Key, pubKeyAddr: Addr)
      modifies this`pubKeys, distr
      ensures distr.Now() == InitValidator(old(distr.Now()), a)
      ensures pubKeys == old(pubKeys)[pubKeyAddr := pubKey]
    {
      distr.InitializeValidator(a);
      pubKeys := pubKeys[pubKeyAddr := pubKey];
      SetInitialRecords(a);
      InitTwice(old(distr.Now()), a);
    }

    method SetInitialRecords(a: Addr)
      modifies distr
      ensures distr.Now() == InitValidator(old(distr.Now()), a)
    {
      distr.history := distr.history[(a, 0) := Record(ZERO, 1)];
      distr.current := distr.current[a := Current(ZERO, 1)];
      distr.commission := distr.commission[a := ZERO];
      distr.outstanding := distr.outstanding[a := ZERO];
    }

    method MintCoins(minter: Addr, coins: Coins)
      modifies this`books
      ensures books == Mint(old(books), minter, coins)
    {
      var balances := books.balances[minter := Add(BalanceOf(books, minter), coins)];
      books := Books(balances, Add(books.supply, coins));
    }

    method SendCoinsFromModule(from: Addr, to: Addr, coins: Coins, blocked: set<Addr>) returns (ok: bool)
      modifies this`books
      ensures ok <==> to !in blocked && Covers(BalanceOf(old(books), from), coins)
      ensures books == if ok then Send(old(books), from, to, coins) else old(books)
    {
      if to in blocked || !Covers(BalanceOf(books, from), coins) {
        return false;
      }
      books := books.(balances := books.balances[from := Sub(BalanceOf(books, from), coins)]);
      books := books.(balances := books.balances[to := Add(BalanceOf(books, to), coins)]);
      return true;
    }

    /** The funding loop; the process exits at the first account that does not decode or may not receive. */
    method FundAccounts(accounts: seq<string>, decode: string -> Option<Addr>, minter: Addr, denom: Denom,
        blocked: set<Addr>)
      returns (ok: bool)
      modifies this`books
      ensures ok <==> AllFundable(accounts, decode, blocked)
      ensures ok ==> books == FundAll(old(books), minter, Decoded(accounts, decode), denom)
    {
      ghost var start := books;
      for i := 0 to |accounts|
        invariant AllFundable(accounts[..i], decode, blocked)
        invariant books == FundAll(start, minter, Decoded(accounts[..i], decode), denom)
      {
        FundableNext(accounts, i, decode, blocked);
        DecodedNext(accounts, i, decode);
        var funded := FundAccount(accounts[i], decode, minter, denom, blocked);
        if !funded {
          return false;
        }
      }
      assert accounts[..|accounts|] == accounts;
      return true;
    }

    /** One turn of the loop: mint first, then decode, then send. */
    method FundAccount(name: string, decode: string -> Option<Addr>, minter: Addr, denom: Denom, blocked: set<Addr>)
        returns (ok: bool)
      modifies this`books
      ensures ok <==> decode(name).Some? && decode(name).value !in blocked
      ensures ok ==> books == FundOne(old(books), minter, decode(name).value, denom)
    {
      var coins := FundingCoins(denom);
      MintCovers(books, minter, denom);
      MintCoins(minter, coins);
      var account := decode(name);
      if account.None? {
        return false;
      }
      ok := SendCoinsFromModule(minter, account.value, coins, blocked);
    }

    /**
     initAppForTestnet. `operatorName` is the operator address as given; the command exits before it
     has changed anything when it does not decode. `pubKeyAddr` is the address of the new consensus
     key, `valAddr` the validator address handed over separately.
     */
    method InitAppForTestnet(operatorName: string, decodeOperator: string -> Option<Addr>, pubKey: Key,
        pubKeyAddr: Addr, valAddr: Addr, accounts: seq<string>, decode: string -> Option<Addr>, minter: Addr,
        denom: Denom, blocked: set<Addr>)
      returns (ok: bool)
      modifies this`store, this`pubKeys, this`signingInfos, this`books, distr
      ensures ok <==> decodeOperator(operatorName).Some? && AllFundable(accounts, decode, blocked)
      ensures match decodeOperator(operatorName)
        case None =>
          && store == old(store) && distr.Now() == old(distr.Now()) && books == old(books)
          && pubKeys == old(pubKeys) && signingInfos == old(signingInfos)
        case Some(operator) =>
          && store == Installed(Swept(old(store)), NewValidator(operator, pubKeyAddr))
          && distr.Now() == InitValidator(old(distr.Now()), operator)
          && pubKeys == old(pubKeys)[pubKeyAddr := pubKey]
          && signingInfos == old(signingInfos)[valAddr := SigningInfo(valAddr, lastBlockHeight - 1, 0, 0, false, 0)]
      ensures ok ==> books == FundAll(old(books), minter, Decoded(accounts, decode), denom)
    {
      var decoded := decodeOperator(operatorName);
      if decoded.None? {
        return false;
      }
      var operator := decoded.value;
      ReplaceValidators(NewValidator(operator, pubKeyAddr));
      InitRecords(operator, pubKey, pubKeyAddr);
      signingInfos := signingInfos[valAddr := SigningInfo(valAddr, lastBlockHeight - 1, 0, 0, false, 0)];
      ok := FundAccounts(accounts, decode, minter, denom, blocked);
    }
  }

  ghost predicate AllFundable(accounts: seq<string>, decode: string -> Option<Addr>, blocked: set<Addr>)
  {
    forall i :: 0 <= i < |accounts| ==> decode(accounts[i]).Some? && decode(accounts[i]).value !in blocked
  }

  ghost function Decoded(accounts: seq<string>, decode: string -> Option<Addr>): seq<Addr>
  {
    seq(|accounts|, i requires 0 <= i < |accounts| =>
      if decode(accounts[i]).Some? then decode(accounts[i]).value else Addr([]))
  }

  lemma InitTwice(s: State, a: Addr)
    ensures InitValidator(InitValidator(s, a), a) == InitValidator(s, a)
  {
  }

  lemma FundableNext(accounts: seq<string>, i: nat, decode: string -> Option<Addr>, blocked: set<Addr>)
    requires i < |accounts| && AllFundable(accounts[..i], decode, blocked)
    ensures AllFundable(accounts[..i + 1], decode, blocked) <==>
      decode(accounts[i]).Some? && decode(accounts[i]).value !in blocked
    ensures !AllFundable(accounts[..i + 1], decode, blocked) ==> !AllFundable(accounts, decode, blocked)
  {
    assert accounts[..i + 1][i] == accounts[i];
    forall j | 0 <= j < i ensures accounts[..i + 1][j] == accounts[..i][j] {}
  }

  lemma DecodedNext(accounts: seq<string>, i: nat, decode: string -> Option<Addr>)
    requires i < |accounts|
    ensures |Decoded(accounts[..i + 1], decode)| == i + 1
    ensures Decoded(accounts[..i + 1], decode)[..i] == Decoded(accounts[..i], decode)
    ensures decode(accounts[i]).Some? ==> Decoded(accounts[..i + 1], decode)[i] == decode(accounts[i]).value
  {
  }

  /**
   The operator's old distribution records are overwritten without being paid out: the books are off by
   exactly its old outstanding rewards, and in balance only when it had none.
   */
  lemma OverwritingStrands(s: State, order: seq<Addr>, a: Addr)
    requires Unique(order) && a in order
    ensures forall d {:trigger Gap(s, order, d)} ::
      Gap(InitValidator(s, a), order, d) == Gap(s, order, d) + Of(OutstandingOf(s, a), d)
    ensures (forall d :: Gap(InitValidator(s, a), order, d) == Gap(s, order, d)) <==> IsZero(OutstandingOf(s, a))
  {
    forall d ensures Gap(InitValidator(s, a), order, d) == Gap(s, order, d) + Of(OutstandingOf(s, a), d) {
      SumChange(s, InitValidator(s, a), order, a, d);
    }
    ZeroAmounts(OutstandingOf(s, a));
  }

  /** Where the accounts to fund come from: the flag's value split at commas. */
  function AccountsToFund(flag: string): seq<string>
  {
    Text.Split(flag, ',')
  }

  /** A comma-separated flag names each of its accounts. */
  lemma FlagNamesAccounts(accounts: seq<string>)
    requires |accounts| > 0 && forall i :: 0 <= i < |accounts| ==> ',' !in accounts[i]
    ensures AccountsToFund(Text.Join(accounts, ',')) == accounts
  {
    Text.SplitJoin(accounts, ',');
  }

  /**
   Not giving any account does not mean funding nobody: splitting the empty flag yields one empty
   string, which never decodes, so the command then always exits with an error.
   */
  lemma EmptyFlagFails(decode: string -> Option<Addr>, blocked: set<Addr>)
    requires decode("").None?
    ensures !AllFundable(AccountsToFund(""), decode, blocked)
  {
    assert AccountsToFund("")[0] == "";
  }

  /** The minter's own balance comes through unchanged in a successful run when it is blocked. */
  lemma MinterUnchanged(b: Books, accounts: seq<string>, decode: string -> Option<Addr>, minter: Addr, denom: Denom,
      blocked: set<Addr>, d: Denom)
    requires AllFundable(accounts, decode, blocked) && minter in blocked
    ensures Of(BalanceOf(FundAll(b, minter, Decoded(accounts, decode), denom), minter), d) ==
      Of(BalanceOf(b, minter), d)
  {
    var to := Decoded(accounts, decode);
    FundingIsExact(b, minter, to, denom, minter, d);
    forall i | 0 <= i < |to| ensures to[i] != minter { assert decode(accounts[i]).value !in blocked; }
    NeverListed(to, minter);
  }

  lemma {:induction false} NeverListed(to: seq<Addr>, a: Addr)
    requires forall i :: 0 <= i < |to| ==> to[i] != a
    ensures Occurrences(to, a) == 0
    decreases |to|
  {
    if to != [] { NeverListed(to[..|to| - 1], a); }
  }
}
