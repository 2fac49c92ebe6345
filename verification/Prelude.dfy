/** Small shared vocabulary: optional values and fixed-width machine words. */
module Prelude {
  datatype Option<+T> = None | Some(value: T)

  const WORD: int := 0x1_0000_0000

  /** Instants of the server and the agent count nanoseconds. */
  const SECOND: int := 1_000_000_000
  const MINUTE: int := 60 * SECOND

  type U8 = n: nat | n < 0x100
  type U16 = n: nat | n < 0x1_0000
  type U32 = n: nat | n < 0x1_0000_0000

  /** Unsigned 32-bit subtraction with wrap-around. */
  function Sub32(a: U32, b: U32): U32 {
    (a - b) % WORD
  }

  function Min(a: int, b: int): int {
    if a <= b then a else b
  }

  function Max(a: int, b: int): int {
    if a >= b then a else b
  }

  function Abs(r: real): real {
    if r < 0.0 then -r else r
  }
}

/** Facts about division that the solver does not find by itself. */
module Arithmetic {
  import opened Prelude

  lemma AtLeastOneTimes(k: int, n: int)
    requires 0 <= n
    ensures 1 <= k ==> n <= k * n
    ensures k <= -1 ==> k * n <= -n
  {
    if 1 <= k {
      assert k * n == n + (k - 1) * n;
    }
    if k <= -1 {
      assert k * n == -n + (k + 1) * n;
    }
  }

  /** Quotient and remainder are unique. */
  lemma QuotientIs(a: int, n: int, q: int, r: int)
    requires a == q * n + r && 0 <= r < n
    ensures a / n == q && a % n == r
  {
    var q', r' := a / n, a % n;
    assert a == q' * n + r';
    assert (q - q') * n == r' - r;
    AtLeastOneTimes(q - q', n);
  }

  /** Differences of wrapped instants are the differences, wrapped. */
  lemma DifferenceModulo(a: nat, b: nat)
    ensures (a % WORD - b % WORD) % WORD == (a - b) % WORD
  {
    var qa, qb := a / WORD, b / WORD;
    assert a - b == (a % WORD - b % WORD) + WORD * (qa - qb);
  }

  lemma SmallModulo(d: int)
    ensures 0 <= d < WORD ==> d % WORD == d
    ensures -WORD <= d < 0 ==> d % WORD == d + WORD
  {
  }
}

/** Numbers written in decimal digits. */
module Decimals {
  predicate IsDigit(c: char) {
    '0' <= c <= '9'
  }

  predicate AllDigits(s: string) {
    forall i :: 0 <= i < |s| ==> IsDigit(s[i])
  }

  function DigitOf(n: nat): char
    requires n < 10
  {
    ('0' as int + n) as char
  }

  /** The number written by the digits of s. */
  function NumberOf(s: string): nat
    requires AllDigits(s)
  {
    if s == "" then 0 else NumberOf(s[..|s| - 1]) * 10 + (s[|s| - 1] as int - '0' as int)
  }
}
