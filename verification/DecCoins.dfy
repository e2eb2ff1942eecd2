/**
 Multi-denomination amounts. An absent denomination counts as zero, and truncation drops what
 it makes zero. Decimal amounts are integers scaled by 10^18; whole amounts are plain integers.
 */
module DecCoins {
  const ONE: nat := 1_000_000_000_000_000_000

  type Denom = string

  type Coins = map<Denom, nat>

  const ZERO: Coins := map[]

  function Of(c: Coins, d: Denom): nat
  {
    if d in c then c[d] else 0
  }

  predicate IsZero(c: Coins)
  {
    forall d :: d in c ==> c[d] == 0
  }

  lemma AddZero(c: Coins)
    ensures Add(c, ZERO) == c && Add(ZERO, c) == c
  {
  }

  lemma SubZero(c: Coins)
    ensures Covers(c, ZERO) && Sub(c, ZERO) == c
  {
  }

  lemma ZeroAmounts(c: Coins)
    ensures IsZero(c) <==> forall d :: Of(c, d) == 0
  {
    forall d | d in c && forall e :: Of(c, e) == 0 ensures c[d] == 0 { assert Of(c, d) == 0; }
  }

  function Add(a: Coins, b: Coins): (c: Coins)
    ensures forall d {:trigger Of(c, d)} :: Of(c, d) == Of(a, d) + Of(b, d)
  {
    map d | d in a.Keys + b.Keys :: Of(a, d) + Of(b, d)
  }

  /** Every amount of `b` can be subtracted from `a`. */
  predicate Covers(a: Coins, b: Coins)
  {
    forall d :: d in b ==> b[d] <= Of(a, d)
  }

  lemma CoversMeans(a: Coins, b: Coins)
    ensures Covers(a, b) <==> forall d :: Of(b, d) <= Of(a, d)
  {
    forall d | Covers(a, b) ensures Of(b, d) <= Of(a, d) {}
    forall d | d in b && forall e :: Of(b, e) <= Of(a, e) ensures b[d] <= Of(a, d) { assert Of(b, d) <= Of(a, d); }
  }

  function Sub(a: Coins, b: Coins): (c: Coins)
    requires Covers(a, b)
    ensures forall d {:trigger Of(c, d)} :: Of(c, d) == Of(a, d) - Of(b, d)
  {
    map d | d in a && (d !in b || a[d] > b[d]) :: a[d] - Of(b, d)
  }

  /** Denomination-wise minimum. */
  function Intersect(a: Coins, b: Coins): (c: Coins)
    ensures forall d {:trigger Of(c, d)} :: Of(c, d) == if Of(a, d) <= Of(b, d) then Of(a, d) else Of(b, d)
    ensures Covers(a, c) && Covers(b, c)
  {
    map d | d in a && d in b :: if a[d] <= b[d] then a[d] else b[d]
  }

  /** The whole coins in a decimal amount. */
  function Whole(c: Coins): (w: Coins)
    ensures forall d {:trigger Of(w, d)} :: Of(w, d) * ONE <= Of(c, d) < (Of(w, d) + 1) * ONE
  {
    map d | d in c && c[d] / ONE > 0 :: c[d] / ONE
  }

  /** What truncation leaves behind: always less than one coin. */
  function Dust(c: Coins): (r: Coins)
    ensures forall d {:trigger Of(r, d)} :: Of(r, d) == Of(c, d) - Of(Whole(c), d) * ONE
    ensures forall d {:trigger Of(r, d)} :: Of(r, d) < ONE
  {
    map d | d in c && c[d] % ONE > 0 :: c[d] % ONE
  }

  function ToDec(w: Coins): (c: Coins)
    ensures forall d {:trigger Of(c, d)} :: Of(c, d) == Of(w, d) * ONE
  {
    map d | d in w :: w[d] * ONE
  }

  /** Division by a whole number of tokens, truncated so that handing out the quotient never overpays. */
  function QuoTruncate(c: Coins, tokens: nat): (q: Coins)
    requires tokens > 0
    ensures forall d {:trigger Of(q, d)} :: Of(q, d) * tokens <= Of(c, d) < (Of(q, d) + 1) * tokens
  {
    map d | d in c && c[d] / tokens > 0 :: c[d] / tokens
  }

  /** Multiplication by a decimal, truncated. */
  function MulTruncate(c: Coins, factor: nat): (p: Coins)
    ensures forall d {:trigger Of(p, d)} :: Of(p, d) * ONE <= Of(c, d) * factor < (Of(p, d) + 1) * ONE
  {
    map d | d in c && c[d] * factor / ONE > 0 :: c[d] * factor / ONE
  }
}
