/** Exponential backoff with jitter, as the publisher and the search indexer compute it. */
module RetryDelays {
  const BASE_RETRY_DELAY_MS := 1_000
  const MAX_RETRY_DELAY_MS := 5 * 60 * 1_000
  const BASE_INDEX_RETRY_DELAY_MS := 250
  const MAX_INDEX_RETRY_DELAY_MS := 8_000

  function Pow2(n: nat): (p: nat)
    ensures p >= 1
  {
    if n == 0 then 1 else 2 * Pow2(n - 1)
  }

  function Min(a: int, b: int): int {
    if a <= b then a else b
  }

  function NominalDelay(base: nat, cap: nat, attempt: int): int {
    Min(base * Pow2(if attempt >= 1 then attempt - 1 else 0), cap)
  }

  /** `random` is the value drawn from the random source, in the unit interval. */
  function Jittered(nominal: int, random: real): int {
    (nominal as real * (0.8 + random * 0.4) + 0.5).Floor
  }

  function PublisherRetryDelay(attempts: int, random: real): int {
    Jittered(NominalDelay(BASE_RETRY_DELAY_MS, MAX_RETRY_DELAY_MS, attempts), random)
  }

  /** Some jitter makes the publisher wait `delayMs` before attempt number `attempts` + 1. */
  ghost predicate PossibleRetryDelay(attempts: int, delayMs: int) {
    exists random: real :: 0.0 <= random <= 1.0 && delayMs == PublisherRetryDelay(attempts, random)
  }

  function IndexRetryDelay(attempt: int, random: real): int {
    Jittered(NominalDelay(BASE_INDEX_RETRY_DELAY_MS, MAX_INDEX_RETRY_DELAY_MS, attempt), random)
  }

  lemma {:induction false} Pow2Monotone(a: nat, b: nat)
    requires a <= b
    ensures Pow2(a) <= Pow2(b)
    decreases b
  {
    if a < b { Pow2Monotone(a, b - 1); }
  }

  lemma NominalDelayMonotone(base: nat, cap: nat, a: int, b: int)
    requires a <= b
    ensures NominalDelay(base, cap, a) <= NominalDelay(base, cap, b)
  {
    var x := if a >= 1 then a - 1 else 0;
    var y := if b >= 1 then b - 1 else 0;
    Pow2Monotone(x, y);
    assert base * Pow2(x) <= base * Pow2(y);
  }

  /** From the first attempt on, the nominal delay doubles until the cap. */
  lemma NominalDelayDoubles(base: nat, cap: nat, attempt: int)
    ensures attempt <= 1 ==> NominalDelay(base, cap, attempt) == Min(base, cap)
    ensures attempt >= 1 ==> NominalDelay(base, cap, attempt + 1) == Min(2 * NominalDelay(base, cap, attempt), cap)
  {
    assert Pow2(0) == 1;
    if attempt >= 1 {
      assert Pow2(attempt) == 2 * Pow2(attempt - 1);
      assert base * Pow2(attempt) == 2 * (base * Pow2(attempt - 1));
    }
  }

  /** The publisher starts from one second and stops doubling at five minutes, the indexer from a quarter
      of a second at eight. */
  lemma DelaysStartAndEnd(random: real)
    ensures PublisherRetryDelay(1, random) == Jittered(1_000, random)
    ensures PublisherRetryDelay(9, random) == Jittered(256_000, random)
    ensures PublisherRetryDelay(10, random) == Jittered(300_000, random)
    ensures IndexRetryDelay(1, random) == Jittered(250, random)
    ensures IndexRetryDelay(6, random) == Jittered(8_000, random) == IndexRetryDelay(7, random)
  {
    assert Pow2(0) == 1 && Pow2(2) == 4 && Pow2(4) == 16 && Pow2(6) == 64 && Pow2(8) == 256;
  }

  lemma Fifths(n: nat)
    ensures Jittered(5 * n, 0.0) == 4 * n && Jittered(5 * n, 1.0) == 6 * n
  {
    assert (5 * n) as real == 5.0 * (n as real);
    assert (5 * n) as real * (0.8 + 0.0 * 0.4) + 0.5 == (4 * n) as real + 0.5;
    assert (5 * n) as real * (0.8 + 1.0 * 0.4) + 0.5 == (6 * n) as real + 0.5;
  }

  /** The jitter takes the delay from four fifths of the nominal one, evenly, to six fifths, to the
      nearest millisecond. */
  lemma JitterExact(nominal: nat, random: real)
    ensures -1.0 <= 2.0 * (Jittered(nominal, random) as real - nominal as real * (0.8 + 0.4 * random)) <= 1.0
    ensures Jittered(5 * nominal, 0.0) == 4 * nominal && Jittered(5 * nominal, 1.0) == 6 * nominal
  {
    var d := nominal as real * (0.8 + random * 0.4);
    var j := Jittered(nominal, random);
    assert j as real <= d + 0.5 < j as real + 1.0;
    Fifths(nominal);
  }

  lemma JitteredBounds(nominal: nat, random: real)
    requires 0.0 <= random <= 1.0
    ensures 4 * nominal <= 5 * Jittered(nominal, random) + 2
    ensures 5 * Jittered(nominal, random) <= 6 * nominal + 2
  {
    var n := nominal as real;
    var d := n * (0.8 + random * 0.4);
    assert 0.0 <= n * random <= n;
    assert d == n * 0.8 + n * random * 0.4;
    var j := Jittered(nominal, random);
    assert j as real <= d + 0.5 < j as real + 1.0;
    assert (5 * j) as real == 5.0 * (j as real) <= 6.0 * n + 2.5;
    assert (6 * nominal) as real == 6.0 * n;
  }

  /** Whatever the attempt and the jitter, a publisher retry waits between 0.8 and 360 seconds. */
  lemma PublisherRetryDelayBounds(attempts: int, random: real)
    requires 0.0 <= random <= 1.0
    ensures 800 <= PublisherRetryDelay(attempts, random) <= 360_000
  {
    var n := NominalDelay(BASE_RETRY_DELAY_MS, MAX_RETRY_DELAY_MS, attempts);
    NominalDelayMonotone(BASE_RETRY_DELAY_MS, MAX_RETRY_DELAY_MS, 1, if attempts >= 1 then attempts else 1);
    assert Pow2(0) == 1;
    assert 1_000 <= n <= 300_000;
    JitteredBounds(n, random);
  }

  lemma DelayBounds(attempts: int, delayMs: int)
    requires PossibleRetryDelay(attempts, delayMs)
    ensures 800 <= delayMs <= 360_000
  {
    var random: real :| 0.0 <= random <= 1.0 && delayMs == PublisherRetryDelay(attempts, random);
    PublisherRetryDelayBounds(attempts, random);
  }

  /** The indexer's wait after failed attempt 1 to 4. */
  lemma IndexRetryDelayBounds(attempt: int, random: real)
    requires 1 <= attempt <= 4 && 0.0 <= random <= 1.0
    ensures 200 * Pow2(attempt - 1) <= IndexRetryDelay(attempt, random) <= 300 * Pow2(attempt - 1)
  {
    var n := NominalDelay(BASE_INDEX_RETRY_DELAY_MS, MAX_INDEX_RETRY_DELAY_MS, attempt);
    assert Pow2(0) == 1 && Pow2(1) == 2 && Pow2(2) == 4 && Pow2(3) == 8;
    assert n == 250 * Pow2(attempt - 1);
    JitteredBounds(n, random);
  }
}
