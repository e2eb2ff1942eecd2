/** The bank: balances, the supply, minting and sending, and the funding of a list of accounts. */
module Bank {
  import opened DecCoins
  import opened StakingTypes

  datatype Books = Books(balances: map<Addr, Coins>, supply: Coins)

  function BalanceOf(b: Books, a: Addr): Coins
  {
    if a in b.balances then b.balances[a] else ZERO
  }

  function Mint(b: Books, minter: Addr, coins: Coins): Books
  {
    Books(b.balances[minter := Add(BalanceOf(b, minter), coins)], Add(b.supply, coins))
  }

  /** Subtract from the sender, then add to the recipient; they may be the same account. */
  function Send(b: Books, from: Addr, to: Addr, coins: Coins): Books
    requires Covers(BalanceOf(b, from), coins)
  {
    var b1 := b.(balances := b.balances[from := Sub(BalanceOf(b, from), coins)]);
    b1.(balances := b1.balances[to := Add(BalanceOf(b1, to), coins)])
  }

  const FUNDING: nat := 1_000_000_000

  function FundingCoins(denom: Denom): Coins
  {
    map[denom := FUNDING]
  }

  function FundOne(b: Books, minter: Addr, to: Addr, denom: Denom): Books
  {
    MintCovers(b, minter, denom);
    Send(Mint(b, minter, FundingCoins(denom)), minter, to, FundingCoins(denom))
  }

  lemma MintCovers(b: Books, minter: Addr, denom: Denom)
    ensures Covers(BalanceOf(Mint(b, minter, FundingCoins(denom)), minter), FundingCoins(denom))
  {
    var c := FundingCoins(denom);
    var a := BalanceOf(Mint(b, minter, c), minter);
    forall d ensures Of(c, d) <= Of(a, d) { assert Of(a, d) == Of(BalanceOf(b, minter), d) + Of(c, d); }
    CoversMeans(a, c);
  }

  function FundAll(b: Books, minter: Addr, to: seq<Addr>, denom: Denom): Books
    decreases |to|
  {
    if to == [] then b else FundOne(FundAll(b, minter, to[..|to| - 1], denom), minter, to[|to| - 1], denom)
  }

  ghost function Occurrences(to: seq<Addr>, a: Addr): nat
    decreases |to|
  {
    if to == [] then 0 else Occurrences(to[..|to| - 1], a) + if to[|to| - 1] == a then 1 else 0
  }

  /** Minting and sending once raises only the recipient's balance, the minter's own included. */
  lemma FundOneExact(b: Books, minter: Addr, to: Addr, denom: Denom, a: Addr, d: Denom)
    ensures Of(BalanceOf(FundOne(b, minter, to, denom), a), d) ==
      Of(BalanceOf(b, a), d) + if a == to && d == denom then FUNDING else 0
    ensures Of(FundOne(b, minter, to, denom).supply, d) == Of(b.supply, d) + if d == denom then FUNDING else 0
  {
    MintCovers(b, minter, denom);
    MintExact(b, minter, FundingCoins(denom), a, d);
    SendExact(Mint(b, minter, FundingCoins(denom)), minter, to, FundingCoins(denom), a, d);
  }

  lemma MintExact(b: Books, minter: Addr, c: Coins, a: Addr, d: Denom)
    ensures Of(BalanceOf(Mint(b, minter, c), a), d) == Of(BalanceOf(b, a), d) + if a == minter then Of(c, d) else 0
    ensures Of(Mint(b, minter, c).supply, d) == Of(b.supply, d) + Of(c, d)
  {
  }

  lemma SendExact(b: Books, from: Addr, to: Addr, c: Coins, a: Addr, d: Denom)
    requires Covers(BalanceOf(b, from), c)
    ensures Of(BalanceOf(Send(b, from, to, c), a), d) ==
            Of(BalanceOf(b, a), d) - (if a == from then Of(c, d) else 0) + if a == to then Of(c, d) else 0
    ensures Send(b, from, to, c).supply == b.supply
  {
    var b1 := b.(balances := b.balances[from := Sub(BalanceOf(b, from), c)]);
    assert Of(BalanceOf(b1, a), d) == Of(BalanceOf(b, a), d) - if a == from then Of(c, d) else 0;
  }

  /**
   Funding is exact: every account, the minter included, gains the funding amount once for each time
   it is listed, nothing else changes, and the supply grows by the amount times the length of the list.
   */
  lemma {:induction false} FundingIsExact(b: Books, minter: Addr, to: seq<Addr>, denom: Denom, a: Addr, d: Denom)
    ensures Of(BalanceOf(FundAll(b, minter, to, denom), a), d) ==
            Of(BalanceOf(b, a), d) + if d == denom then 1_000_000_000 * Occurrences(to, a) else 0
    ensures Of(FundAll(b, minter, to, denom).supply, d) ==
      Of(b.supply, d) + if d == denom then 1_000_000_000 * |to| else 0
    decreases |to|
  {
    if to != [] {
      var front := to[..|to| - 1];
      FundingIsExact(b, minter, front, denom, a, d);
      FundOneExact(FundAll(b, minter, front, denom), minter, to[|to| - 1], denom, a, d);
    }
  }

  // ---- Supply against balances ----

  ghost function Total(b: Books, holders: set<Addr>, d: Denom): nat
    decreases |holders|
  {
    if holders == {} then 0
    else
      var a :| a in holders;
      Of(BalanceOf(b, a), d) + Total(b, holders - {a}, d)
  }

  lemma {:induction false} TotalSplit(b: Books, holders: set<Addr>, d: Denom, a: Addr)
    requires a in holders
    ensures Total(b, holders, d) == Of(BalanceOf(b, a), d) + Total(b, holders - {a}, d)
    decreases |holders|
  {
    var x :| x in holders && Total(b, holders, d) == Of(BalanceOf(b, x), d) + Total(b, holders - {x}, d);
    if x != a {
      TotalSplit(b, holders - {x}, d, a);
      TotalSplit(b, holders - {a}, d, x);
      assert holders - {x} - {a} == holders - {a} - {x};
    }
  }

  lemma {:induction false} TotalElsewhere(b: Books, c: Books, holders: set<Addr>, d: Denom)
    requires forall a :: a in holders ==> Of(BalanceOf(b, a), d) == Of(BalanceOf(c, a), d)
    ensures Total(b, holders, d) == Total(c, holders, d)
    decreases |holders|
  {
    if holders != {} {
      var x :| x in holders;
      TotalSplit(b, holders, d, x);
      TotalSplit(c, holders, d, x);
      TotalElsewhere(b, c, holders - {x}, d);
    }
  }

  /** The supply of every denomination is the sum of all balances in it. */
  ghost predicate Balanced(b: Books)
  {
    forall d {:trigger Of(b.supply, d)} :: Of(b.supply, d) == Total(b, b.balances.Keys, d)
  }

  lemma {:induction false} TotalOver(b: Books, some: set<Addr>, more: set<Addr>, d: Denom)
    requires some <= more && forall a :: a in more && a !in some ==> Of(BalanceOf(b, a), d) == 0
    ensures Total(b, some, d) == Total(b, more, d)
    decreases |more - some|
  {
    if some != more {
      assert more == some + (more - some);
      var x :| x in more - some;
      TotalSplit(b, some + {x}, d, x);
      assert some + {x} - {x} == some;
      TotalOver(b, some + {x}, more, d);
    }
  }

  lemma FundOneBalanced(b: Books, minter: Addr, to: Addr, denom: Denom)
    requires Balanced(b)
    ensures Balanced(FundOne(b, minter, to, denom))
  {
    var c := FundOne(b, minter, to, denom);
    var all := c.balances.Keys;
    assert all == b.balances.Keys + {minter, to};
    forall d ensures Of(c.supply, d) == Total(c, all, d) {
      FundOneExact(b, minter, to, denom, to, d);
      TotalOver(b, b.balances.Keys, all, d);
      TotalSplit(b, all, d, to);
      TotalSplit(c, all, d, to);
      forall a | a in all - {to} ensures Of(BalanceOf(b, a), d) == Of(BalanceOf(c, a), d) {
        FundOneExact(b, minter, to, denom, a, d);
      }
      TotalElsewhere(b, c, all - {to}, d);
      assert Of(b.supply, d) == Total(b, b.balances.Keys, d);
    }
  }

  /** Funding keeps the supply equal to the sum of all balances. */
  lemma {:induction false} FundingKeepsBooksBalanced(b: Books, minter: Addr, to: seq<Addr>, denom: Denom)
    requires Balanced(b)
    ensures Balanced(FundAll(b, minter, to, denom))
    decreases |to|
  {
    if to != [] {
      FundingKeepsBooksBalanced(b, minter, to[..|to| - 1], denom);
      FundOneBalanced(FundAll(b, minter, to[..|to| - 1], denom), minter, to[|to| - 1], denom);
    }
  }
}
