/** Genesis coins as sorted lists, and the supply accumulated from the genesis balances. */
module GenesisSupply {
  import opened Bytes
  import opened StakingTypes

  datatype Coin = Coin(denom: Key, amount: nat)
  datatype Balance = Balance(address: string, coins: seq<Coin>)

  /** "testtoken" and "ujay" in bytes. */
  const TESTTOKEN: Key := [116, 101, 115, 116, 116, 111, 107, 101, 110]
  const UJAY: Key := [117, 106, 97, 121]

  function AmountOf(coins: seq<Coin>, d: Key): nat
  {
    if coins == [] then 0 else (if coins[0].denom == d then coins[0].amount else 0) + AmountOf(coins[1..], d)
  }

  ghost predicate Above(coins: seq<Coin>, d: Key)
  {
    forall i :: 0 <= i < |coins| ==> Less(d, coins[i].denom)
  }

  /** Sorted by denomination, without duplicates and without zero amounts. */
  ghost predicate Canonical(coins: seq<Coin>)
  {
    coins == [] || (coins[0].amount > 0 && Above(coins[1..], coins[0].denom) && Canonical(coins[1..]))
  }

  function NonZero(c: Coin): seq<Coin>
  {
    if c.amount == 0 then [] else [c]
  }

  /** Coins.Add: the sorted merge that sums equal denominations and drops what is zero. */
  function AddCoins(a: seq<Coin>, b: seq<Coin>): seq<Coin>
    decreases |a| + |b|
  {
    if a == [] then (if b == [] then [] else NonZero(b[0]) + AddCoins(a, b[1..]))
    else if b == [] || Less(a[0].denom, b[0].denom) then NonZero(a[0]) + AddCoins(a[1..], b)
    else if a[0].denom == b[0].denom then
      NonZero(Coin(a[0].denom, a[0].amount + b[0].amount)) + AddCoins(a[1..], b[1..])
    else NonZero(b[0]) + AddCoins(a, b[1..])
  }

  lemma {:induction false} AmountOfConcat(a: seq<Coin>, b: seq<Coin>, d: Key)
    ensures AmountOf(a + b, d) == AmountOf(a, d) + AmountOf(b, d)
  {
    if a == [] {
      assert a + b == b;
    } else {
      assert (a + b)[1..] == a[1..] + b;
      AmountOfConcat(a[1..], b, d);
    }
  }

  lemma {:induction false} AddAmounts(a: seq<Coin>, b: seq<Coin>, d: Key)
    ensures AmountOf(AddCoins(a, b), d) == AmountOf(a, d) + AmountOf(b, d)
    decreases |a| + |b|
  {
    if a == [] {
      if b != [] {
        AmountOfConcat(NonZero(b[0]), AddCoins(a, b[1..]), d);
        AddAmounts(a, b[1..], d);
      }
    } else if b == [] || Less(a[0].denom, b[0].denom) {
      AmountOfConcat(NonZero(a[0]), AddCoins(a[1..], b), d);
      AddAmounts(a[1..], b, d);
    } else if a[0].denom == b[0].denom {
      var c := Coin(a[0].denom, a[0].amount + b[0].amount);
      AmountOfConcat(NonZero(c), AddCoins(a[1..], b[1..]), d);
      AddAmounts(a[1..], b[1..], d);
    } else {
      AmountOfConcat(NonZero(b[0]), AddCoins(a, b[1..]), d);
      AddAmounts(a, b[1..], d);
    }
  }

  lemma {:induction false} AddAbove(a: seq<Coin>, b: seq<Coin>, d: Key)
    requires Above(a, d) && Above(b, d)
    ensures Above(AddCoins(a, b), d)
    decreases |a| + |b|
  {
    if a == [] {
      if b != [] { AddAbove(a, b[1..], d); }
    } else if b == [] || Less(a[0].denom, b[0].denom) {
      AddAbove(a[1..], b, d);
    } else if a[0].denom == b[0].denom {
      AddAbove(a[1..], b[1..], d);
    } else {
      AddAbove(a, b[1..], d);
    }
  }

  lemma AboveTransitive(coins: seq<Coin>, d: Key, e: Key)
    requires Less(d, e) && Above(coins, e)
    ensures Above(coins, d)
  {
    forall i | 0 <= i < |coins| ensures Less(d, coins[i].denom) { LessTransitive(d, e, coins[i].denom); }
  }

  lemma AboveCons(coins: seq<Coin>, d: Key)
    requires coins != [] && Less(d, coins[0].denom) && Above(coins[1..], coins[0].denom)
    ensures Above(coins, d)
  {
    AboveTransitive(coins[1..], d, coins[0].denom);
    forall i | 0 <= i < |coins| ensures Less(d, coins[i].denom) {
      if i > 0 { assert coins[i] == coins[1..][i - 1]; }
    }
  }

  lemma PrependCanonical(c: Coin, rest: seq<Coin>)
    requires Canonical(rest) && Above(rest, c.denom)
    ensures Canonical(NonZero(c) + rest)
  {
    if c.amount == 0 {
      assert NonZero(c) + rest == rest;
    } else {
      assert (NonZero(c) + rest)[1..] == rest;
    }
  }

  /** The merge of canonical lists is canonical. */
  lemma {:induction false} AddCanonical(a: seq<Coin>, b: seq<Coin>)
    requires Canonical(a) && Canonical(b)
    ensures Canonical(AddCoins(a, b))
    decreases |a| + |b|
  {
    if a == [] {
      if b != [] {
        AddCanonical(a, b[1..]);
        AddAbove(a, b[1..], b[0].denom);
        PrependCanonical(b[0], AddCoins(a, b[1..]));
      }
    } else if b == [] || Less(a[0].denom, b[0].denom) {
      AddCanonical(a[1..], b);
      if b != [] { AboveCons(b, a[0].denom); }
      AddAbove(a[1..], b, a[0].denom);
      PrependCanonical(a[0], AddCoins(a[1..], b));
    } else if a[0].denom == b[0].denom {
      AddCanonical(a[1..], b[1..]);
      AddAbove(a[1..], b[1..], a[0].denom);
      PrependCanonical(Coin(a[0].denom, a[0].amount + b[0].amount), AddCoins(a[1..], b[1..]));
    } else {
      LessTotal(a[0].denom, b[0].denom);
      AddCanonical(a, b[1..]);
      AboveCons(a, b[0].denom);
      AddAbove(a, b[1..], b[0].denom);
      PrependCanonical(b[0], AddCoins(a, b[1..]));
    }
  }

  lemma {:induction false} AmountBelow(coins: seq<Coin>, d: Key)
    requires Above(coins, d)
    ensures AmountOf(coins, d) == 0
  {
    if coins != [] {
      LessIrreflexive(d);
      AmountBelow(coins[1..], d);
    }
  }

  lemma HeadPositive(coins: seq<Coin>)
    requires Canonical(coins) && coins != []
    ensures AmountOf(coins, coins[0].denom) > 0
  {
  }

  /** A canonical list is determined by its amounts. */
  lemma {:induction false} CanonicalIsUnique(a: seq<Coin>, b: seq<Coin>)
    requires Canonical(a) && Canonical(b)
    requires forall d :: AmountOf(a, d) == AmountOf(b, d)
    ensures a == b
    decreases |a|
  {
    if a != [] && b != [] {
      HeadsAgree(a, b);
      HeadsAgree(b, a);
      LessTotal(a[0].denom, b[0].denom);
      AmountBelow(a[1..], a[0].denom);
      AmountBelow(b[1..], b[0].denom);
      assert AmountOf(a, a[0].denom) == a[0].amount && AmountOf(b, a[0].denom) == b[0].amount;
      forall d ensures AmountOf(a[1..], d) == AmountOf(b[1..], d) { assert AmountOf(a, d) == AmountOf(b, d); }
      CanonicalIsUnique(a[1..], b[1..]);
      assert a == [a[0]] + a[1..] && b == [b[0]] + b[1..];
    } else {
      if a != [] { HeadPositive(a); }
      if b != [] { HeadPositive(b); }
    }
  }

  lemma HeadsAgree(a: seq<Coin>, b: seq<Coin>)
    requires Canonical(a) && Canonical(b) && a != [] && b != []
    requires forall d :: AmountOf(a, d) == AmountOf(b, d)
    ensures !Less(a[0].denom, b[0].denom)
  {
    if Less(a[0].denom, b[0].denom) {
      AboveCons(b, a[0].denom);
      HeadPositive(a);
      AmountBelow(b, a[0].denom);
    }
  }

  // ---- The supply ----

  function Supply(balances: seq<Balance>): seq<Coin>
    decreases |balances|
  {
    if balances == [] then [] else AddCoins(Supply(balances[..|balances| - 1]), balances[|balances| - 1].coins)
  }

  ghost function SumOf(balances: seq<Balance>, d: Key): nat
    decreases |balances|
  {
    if balances == [] then 0 else SumOf(balances[..|balances| - 1], d) + AmountOf(balances[|balances| - 1].coins, d)
  }

  /** The accumulated supply is canonical and equals, in every denomination, the sum over the balances. */
  lemma {:induction false} SupplyIsSum(balances: seq<Balance>)
    requires forall i :: 0 <= i < |balances| ==> Canonical(balances[i].coins)
    ensures Canonical(Supply(balances))
    ensures forall d :: AmountOf(Supply(balances), d) == SumOf(balances, d)
    decreases |balances|
  {
    if balances != [] {
      var front, last := balances[..|balances| - 1], balances[|balances| - 1];
      SupplyIsSum(front);
      AddCanonical(Supply(front), last.coins);
      forall d ensures AmountOf(Supply(balances), d) == SumOf(balances, d) { AddAmounts(Supply(front), last.coins, d); }
    }
  }

  lemma {:induction false} SumOfConcat(a: seq<Balance>, b: seq<Balance>, d: Key)
    ensures SumOf(a + b, d) == SumOf(a, d) + SumOf(b, d)
    decreases |b|
  {
    if b == [] {
      assert a + b == a;
    } else {
      var n := |b| - 1;
      assert (a + b)[..|a + b| - 1] == a + b[..n];
      SumOfConcat(a, b[..n], d);
    }
  }

  lemma {:induction false} SumOfPermuted(a: seq<Balance>, b: seq<Balance>, d: Key)
    requires multiset(a) == multiset(b)
    ensures SumOf(a, d) == SumOf(b, d)
    decreases |a|
  {
    if a == [] {
      assert |multiset(b)| == 0;
    } else {
      var n := |a| - 1;
      var last := a[n];
      assert last in multiset(b);
      var i :| 0 <= i < |b| && b[i] == last;
      TakeOut(a, n);
      TakeOut(b, i);
      assert a[..n] + a[n + 1..] == a[..n];
      SumOfPermuted(a[..n], b[..i] + b[i + 1..], d);
      SumWithout(b, i, d);
    }
  }

  lemma TakeOut(b: seq<Balance>, i: nat)
    requires i < |b|
    ensures multiset(b[..i] + b[i + 1..]) == multiset(b) - multiset{b[i]}
  {
    assert b == b[..i] + [b[i]] + b[i + 1..];
    assert multiset(b) == multiset(b[..i] + b[i + 1..]) + multiset{b[i]};
  }

  lemma SumWithout(b: seq<Balance>, i: nat, d: Key)
    requires i < |b|
    ensures SumOf(b, d) == SumOf(b[..i] + b[i + 1..], d) + AmountOf(b[i].coins, d)
  {
    var one := [b[i]];
    SumOfConcat(b[..i] + one, b[i + 1..], d);
    SumOfConcat(b[..i], one, d);
    SumOfConcat(b[..i], b[i + 1..], d);
    assert b == b[..i] + one + b[i + 1..];
    assert one[..0] == [];
  }

  /** The supply does not depend on how sanitising permutes the balances. */
  lemma SupplyIgnoresOrder(a: seq<Balance>, b: seq<Balance>)
    requires multiset(a) == multiset(b)
    requires forall i :: 0 <= i < |a| ==> Canonical(a[i].coins)
    ensures Supply(a) == Supply(b)
  {
    forall i | 0 <= i < |b| ensures Canonical(b[i].coins) {
      assert b[i] in multiset(a);
      var j :| 0 <= j < |a| && a[j] == b[i];
    }
    SupplyIsSum(a);
    SupplyIsSum(b);
    forall d ensures AmountOf(Supply(a), d) == AmountOf(Supply(b), d) { SumOfPermuted(a, b, d); }
    CanonicalIsUnique(Supply(a), Supply(b));
  }

  /** Coins.Sort, by denomination. */
  function Insert(c: Coin, coins: seq<Coin>): seq<Coin>
  {
    if coins == [] || !Less(coins[0].denom, c.denom) then [c] + coins else [coins[0]] + Insert(c, coins[1..])
  }

  function SortCoins(coins: seq<Coin>): seq<Coin>
  {
    if coins == [] then [] else Insert(coins[0], SortCoins(coins[1..]))
  }

  const ACCOUNT_TOKENS: nat := 1000 * POWER_REDUCTION
  const ACCOUNT_STAKE: nat := 500 * POWER_REDUCTION

  /** What each genesis account gets. */
  function AccountCoins(): seq<Coin>
  {
    SortCoins([Coin(TESTTOKEN, ACCOUNT_TOKENS), Coin(UJAY, ACCOUNT_STAKE)])
  }

  lemma AccountCoinsSorted()
    ensures AccountCoins() == [Coin(TESTTOKEN, 1_000_000_000), Coin(UJAY, 500_000_000)]
    ensures Canonical(AccountCoins())
  {
    var t, u := Coin(TESTTOKEN, ACCOUNT_TOKENS), Coin(UJAY, ACCOUNT_STAKE);
    assert Less(TESTTOKEN, UJAY) && !Less(UJAY, TESTTOKEN);
    assert [t, u][1..] == [u] && [u][1..] == [];
    assert SortCoins([u]) == [u];
    assert AccountCoins() == [t, u];
    assert Canonical([u]);
  }

  lemma {:induction false} SumOfEqual(balances: seq<Balance>, coins: seq<Coin>, d: Key)
    requires forall i :: 0 <= i < |balances| ==> balances[i].coins == coins
    ensures SumOf(balances, d) == |balances| * AmountOf(coins, d)
    decreases |balances|
  {
    if balances != [] {
      var n, x := |balances|, AmountOf(coins, d);
      SumOfEqual(balances[..n - 1], coins, d);
      assert n * x == (n - 1) * x + x;
    }
  }

  /** n accounts give exactly n times the account's coins, in canonical form. */
  lemma {:induction false} SupplyOfAccounts(balances: seq<Balance>)
    requires forall i :: 0 <= i < |balances| ==> balances[i].coins == AccountCoins()
    ensures Supply(balances) ==
            if balances == [] then []
            else [Coin(TESTTOKEN, |balances| * 1_000_000_000), Coin(UJAY, |balances| * 500_000_000)]
  {
    AccountCoinsSorted();
    SupplyIsSum(balances);
    if balances != [] {
      var c := TimesAccount(|balances|);
      TwoCanonical(c[0], c[1]);
      forall d ensures AmountOf(Supply(balances), d) == AmountOf(c, d) {
        SumOfEqual(balances, AccountCoins(), d);
        TimesAmounts(|balances|, d);
      }
      CanonicalIsUnique(Supply(balances), c);
    }
  }

  ghost function TimesAccount(n: nat): seq<Coin>
  {
    [Coin(TESTTOKEN, n * 1_000_000_000), Coin(UJAY, n * 500_000_000)]
  }

  lemma TwoCanonical(t: Coin, u: Coin)
    requires t.denom == TESTTOKEN && u.denom == UJAY && t.amount > 0 && u.amount > 0
    ensures Canonical([t, u])
  {
    assert Less(TESTTOKEN, UJAY);
    assert [t, u][1..] == [u] && Canonical([u]);
  }

  lemma TimesAmounts(n: nat, d: Key)
    ensures AmountOf(TimesAccount(n), d) == n * AmountOf(AccountCoins(), d)
  {
    AccountCoinsSorted();
    TwoAmounts(Coin(TESTTOKEN, 1_000_000_000), Coin(UJAY, 500_000_000), d);
    TwoAmounts(Coin(TESTTOKEN, n * 1_000_000_000), Coin(UJAY, n * 500_000_000), d);
  }

  lemma TwoAmounts(t: Coin, u: Coin, d: Key)
    ensures AmountOf([t, u], d) == (if t.denom == d then t.amount else 0) + (if u.denom == d then u.amount else 0)
  {
    var c := [t, u];
    assert c[1..] == [u] && [u][1..] == [];
    assert AmountOf(c[1..], d) == if u.denom == d then u.amount else 0;
  }

  /** The loop of initGenFiles over the sanitised balances. */
  method AccumulateSupply(balances: seq<Balance>) returns (supply: seq<Coin>)
    ensures supply == Supply(balances)
  {
    supply := [];
    for i := 0 to |balances|
      invariant supply == Supply(balances[..i])
    {
      assert balances[..i + 1][..i] == balances[..i];
      supply := AddCoins(supply, balances[i].coins);
    }
    assert balances[..|balances|] == balances;
  }
}
