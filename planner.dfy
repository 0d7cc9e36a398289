/**
 * The integer arithmetic that shapes the successive-halving schedule: the
 * number of candidates kept at a rung, the number of rungs needed to get
 * down to one candidate, and the length of a rung.
 *
 * The source evaluates these with floats (`math.ceil(s / eta)`,
 * `math.ceil(math.log(n, eta))`, `math.floor(budget / ...)`); here they are
 * the exact integer quantities those expressions stand for.
 */
module BudgetPlanner {

  /** eta raised to the power k. */
  function Pow(eta: nat, k: nat): (p: nat)
  {
    if k == 0 then 1 else eta * Pow(eta, k - 1)
  }

  /** ceil(a / b): the least q with q * b >= a. */
  function CeilDiv(a: nat, b: nat): (q: nat)
    requires b >= 1
    ensures q * b >= a
    ensures q == 0 || (q - 1) * b < a
  {
    (a + b - 1) / b
  }

  /** Multiplying both sides of a <= b by the same natural number. */
  lemma MulMono(a: int, b: int, x: nat)
    requires a <= b
    ensures x * a <= x * b
  {
  }

  /** Cancelling a positive factor d from a * d < b * d. */
  lemma MulCancel(a: int, b: int, d: int)
    requires d > 0 && a * d < b * d
    ensures a < b
  {
    assert (b - a) * d == b * d - a * d;
  }

  /** Any q with q * b >= a is at least ceil(a / b). */
  lemma CeilDivLeast(a: nat, b: nat, x: nat)
    requires b >= 1 && x * b >= a
    ensures CeilDiv(a, b) <= x
  {
    var q := CeilDiv(a, b);
    if q > 0 {
      MulCancel(q - 1, x, b);
    }
  }

  /** Keeping ceil(s / eta) of s candidates keeps at least one and, while
      more than one is left, strictly fewer than s. */
  lemma CutoffShrinks(s: nat, eta: nat)
    requires eta >= 2
    ensures s >= 1 ==> 1 <= CeilDiv(s, eta) <= s
    ensures s > 1 ==> CeilDiv(s, eta) < s
    ensures CeilDiv(1, eta) == 1
  {
    CeilDivLeast(s, eta, s);
    var q := CeilDiv(s, eta);
    if q >= 1 {
      MulMono(2, eta, q - 1);
    }
    CeilDivLeast(1, eta, 1);
  }

  /** The number of rungs that take n candidates down to one: the integer
      ceil(log_eta(n)), computed by repeated cutoffs. */
  function CeilLog(n: nat, eta: nat): nat
    requires eta >= 2
    decreases n
  {
    if n <= 1 then 0
    else
      CutoffShrinks(n, eta);
      1 + CeilLog(CeilDiv(n, eta), eta)
  }

  /** From x >= m and m * eta >= n: eta * x >= n. */
  lemma ScaleAtLeast(x: int, m: int, eta: nat, n: int)
    requires x >= m && m * eta >= n
    ensures eta * x >= n
  {
    MulMono(m, x, eta);
  }

  /** From x <= m - 1 and (m - 1) * eta < n: eta * x < n. */
  lemma ScaleBelow(x: int, m: int, eta: nat, n: int)
    requires x <= m - 1 && (m - 1) * eta < n
    ensures eta * x < n
  {
    MulMono(x, m - 1, eta);
  }

  /** CeilLog(n, eta) is a power of eta large enough for n, and the power one
      below it is not. */
  lemma {:induction false} CeilLogBounds(n: nat, eta: nat)
    requires eta >= 2
    ensures n <= Pow(eta, CeilLog(n, eta))
    ensures n >= 2 ==> CeilLog(n, eta) >= 1 && Pow(eta, CeilLog(n, eta) - 1) < n
    decreases n
  {
    if n >= 2 {
      CutoffShrinks(n, eta);
      var m := CeilDiv(n, eta);
      var k := CeilLog(m, eta);
      CeilLogBounds(m, eta);
      assert CeilLog(n, eta) == k + 1;
      var pk := Pow(eta, k);
      assert Pow(eta, k + 1) == eta * pk;
      // eta^(k+1) = eta * eta^k >= eta * m >= n
      ScaleAtLeast(pk, m, eta, n);
      if m >= 2 {
        // eta^k = eta * eta^(k-1) <= eta * (m - 1) < n
        var pk1 := Pow(eta, k - 1);
        assert pk == eta * pk1;
        ScaleBelow(pk1, m, eta, n);
      } else {
        assert k == 0;
      }
    }
  }

  /** No smaller power of eta reaches n: CeilLog is the least such exponent. */
  lemma {:induction false} CeilLogLeast(n: nat, eta: nat, k: nat)
    requires eta >= 2
    requires n <= Pow(eta, k)
    ensures CeilLog(n, eta) <= k
    decreases n
  {
    if n >= 2 {
      CutoffShrinks(n, eta);
      var p := Pow(eta, k - 1);
      CeilDivLeast(n, eta, p);
      CeilLogLeast(CeilDiv(n, eta), eta, k - 1);
    }
  }

  /** The rung length floor(budget / (s * c)) for s active candidates and c
      rungs in all. */
  function RungLength(budget: int, s: nat, c: nat): (r: int)
    requires s >= 1 && c >= 1
    ensures r * (s * c) <= budget < (r + 1) * (s * c)
  {
    budget / (s * c)
  }

  /** With a non-negative budget, fewer active candidates never get a
      shorter rung. */
  lemma RungLengthGrows(budget: int, s: nat, s': nat, c: nat)
    requires budget >= 0 && 1 <= s' <= s && c >= 1
    ensures 0 <= RungLength(budget, s, c) <= RungLength(budget, s', c)
  {
    var r, r' := RungLength(budget, s, c), RungLength(budget, s', c);
    var d, d' := s * c, s' * c;
    MulMono(s', s, c);
    MulCancel(-1, r, d);
    MulMono(d', d, r);
    MulCancel(r, r' + 1, d');
  }

  /** One more rung of cost s * r, with r * (s * c) <= budget, keeps the
      credited budget within budget / c per rung. */
  lemma CostStep(used: int, s: int, r: int, c: int, budget: int, k: int)
    requires used * c <= k * budget && r * (s * c) <= budget
    ensures (used + s * r) * c <= (k + 1) * budget
  {
    assert (used + s * r) * c == used * c + r * (s * c);
  }

  /** used * c <= k * budget with k <= c rungs bounds used by budget. */
  lemma CostTotal(used: int, c: int, budget: int, k: int)
    requires c >= 1 && budget >= 0 && 0 <= k <= c && used * c <= k * budget
    ensures used <= budget
  {
    MulMono(k, c, budget);
    MulCancel(used, budget + 1, c);
  }
}
