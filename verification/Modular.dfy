/** Remainders of a variable modulus: going round a ring one step at a time. */
module Modular {

  lemma ModStep(a: nat, n: nat)
    requires n > 0
    ensures (a + 1) % n == if a % n + 1 == n then 0 else a % n + 1
  {
    var q, r := a / n, a % n;
    if r + 1 < n { ModIs(a + 1, n, q, r + 1); } else { ModIs(a + 1, n, q + 1, 0); }
  }

  lemma ModIs(a: nat, n: nat, q: nat, r: nat)
    requires n > 0 && r < n && a == q * n + r
    ensures a % n == r
  {
    var q', r' := a / n, a % n;
    Quotient(n, q, r, q', r');
  }

  lemma Quotient(n: nat, q: nat, r: nat, q': nat, r': nat)
    requires r < n && r' < n && q * n + r == q' * n + r'
    ensures r == r'
  {
    if q < q' { Multiple(q, q', n); } else if q' < q { Multiple(q', q, n); }
  }

  lemma Multiple(a: nat, b: nat, n: nat)
    requires a < b
    ensures a * n + n <= b * n
    decreases b
  {
    assert b * n == (b - 1) * n + n;
    if a < b - 1 { Multiple(a, b - 1, n); }
  }
}
