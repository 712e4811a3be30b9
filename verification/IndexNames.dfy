/** Names of search indices: `messages-v` and a version. */
module IndexNames {
  import opened Wrappers

  const PREFIX := "messages-v"

  /** 2^53: up to here, the program's numbers are exact. */
  const EXACT_LIMIT: nat := 0x20_0000_0000_0000

  /** 10^21: below it, numbers are printed without an exponent. */
  const PLAIN_LIMIT: nat := 1_000_000_000_000_000_000_000

  // ---- Decimal text ----

  predicate IsDigit(ch: char) {
    '0' <= ch <= '9'
  }

  predicate AllDigits(s: string) {
    forall k :: 0 <= k < |s| ==> IsDigit(s[k])
  }

  /** Decimal digits, the first of them not a zero. */
  predicate IsVersion(s: string) {
    s != "" && s[0] != '0' && AllDigits(s)
  }

  function Value(s: string): nat
    requires AllDigits(s)
  {
    if s == "" then 0 else
    var n := |s| - 1;
    10 * Value(s[..n]) + (s[n] as int - '0' as int)
  }

  function Digit(d: nat): char
    requires d < 10
  {
    ('0' as int + d) as char
  }

  function Decimal(n: nat): string {
    if n < 10 then [Digit(n)] else Decimal(n / 10) + [Digit(n % 10)]
  }

  lemma {:induction false} DecimalRoundTrip(n: nat)
    ensures AllDigits(Decimal(n)) && Value(Decimal(n)) == n
    ensures n >= 1 ==> IsVersion(Decimal(n))
  {
    if n < 10 {
      assert Decimal(n)[..0] == "";
    } else {
      DecimalRoundTrip(n / 10);
      var s := Decimal(n);
      assert s[..|s| - 1] == Decimal(n / 10);
    }
  }

  lemma {:induction false} ValueRoundTrip(s: string)
    requires IsVersion(s)
    ensures Value(s) >= 1 && Decimal(Value(s)) == s
  {
    var n := |s| - 1;
    if n == 0 {
      assert Value(s[..0]) == 0;
    } else {
      ValueRoundTrip(s[..n]);
      assert Value(s) / 10 == Value(s[..n]);
    }
  }

  /** Exactly the decimal texts of positive numbers are versions. */
  lemma VersionsAreDecimals(s: string)
    ensures IsVersion(s) <==> exists n: nat :: n >= 1 && s == Decimal(n)
  {
    if IsVersion(s) {
      ValueRoundTrip(s);
    } else {
      forall n: nat | n >= 1 ensures s != Decimal(n) { DecimalRoundTrip(n); }
    }
  }

  // ---- The program's numbers: 53 binary digits, rounded to the nearest, ties to even ----

  /** Round `n` and a fraction: `half` says whether that is at least a half, `more` whether there is
      anything else to it. */
  function Round(n: nat, half: bool, more: bool): nat {
    if n < EXACT_LIMIT then if half && (more || n % 2 == 1) then n + 1 else n
    else 2 * Round(n / 2, n % 2 == 1, half || more)
  }

  function Rounded(n: nat): nat {
    Round(n, false, false)
  }

  /** Number `n` is one of the program's. */
  predicate IsNumber(n: nat) {
    n < EXACT_LIMIT || (n % 2 == 0 && IsNumber(n / 2))
  }

  lemma {:induction false} RoundGivesNumber(n: nat, half: bool, more: bool)
    ensures IsNumber(Round(n, half, more))
  {
    if n >= EXACT_LIMIT {
      RoundGivesNumber(n / 2, n % 2 == 1, half || more);
      assert 2 * Round(n / 2, n % 2 == 1, half || more) / 2 == Round(n / 2, n % 2 == 1, half || more);
    }
  }

  /** Less than a half is dropped. */
  lemma {:induction false} RoundDown(n: nat, more: bool)
    requires IsNumber(n)
    ensures Round(n, false, more) == n
  {
    if n >= EXACT_LIMIT { RoundDown(n / 2, more); }
  }

  function Distance(a: real, b: real): real {
    if a <= b then b - a else a - b
  }

  /** Fraction `f` is what is left to be rounded. */
  predicate Remains(f: real, half: bool, more: bool) {
    0.0 <= f < 1.0 && (half <==> f >= 0.5) && (more <==> f != 0.0 && f != 0.5)
  }

  /** Among whole numbers. */
  lemma NearestWhole(n: nat, half: bool, more: bool, f: real, m: nat)
    requires Remains(f, half, more)
    ensures var whole := if half && (more || n % 2 == 1) then n + 1 else n;
      Distance(whole as real, n as real + f) <= Distance(m as real, n as real + f)
  {
    if m <= n { assert m as real <= n as real; } else { assert m as real >= (n + 1) as real == n as real + 1.0; }
  }

  /** What is left after halving. */
  lemma HalvedRemains(n: nat, half: bool, more: bool, f: real) returns (rest: real)
    requires Remains(f, half, more)
    ensures Remains(rest, n % 2 == 1, half || more) && n as real + f == 2.0 * ((n / 2) as real + rest)
  {
    var bit := n % 2;
    assert n == 2 * (n / 2) + bit;
    rest := (bit as real + f) / 2.0;
  }

  lemma Doubled(a: nat, b: nat, x: real)
    requires Distance(a as real, x) <= Distance(b as real, x)
    ensures Distance((2 * a) as real, 2.0 * x) <= Distance((2 * b) as real, 2.0 * x)
  {
    assert (2 * a) as real == 2.0 * a as real && (2 * b) as real == 2.0 * b as real;
  }

  /** From 2^53 on, an even number is at least as near as any. */
  lemma EvenIsNearer(n: nat, f: real, m: nat) returns (h: nat)
    requires n >= EXACT_LIMIT && IsNumber(m) && f >= 0.0
    ensures IsNumber(h) && Distance((2 * h) as real, n as real + f) <= Distance(m as real, n as real + f)
  {
    h := if m < EXACT_LIMIT then EXACT_LIMIT / 2 else m / 2;
    assert m < EXACT_LIMIT ==> m as real <= (2 * h) as real <= n as real;
  }

  lemma {:induction false} RoundNearest(n: nat, half: bool, more: bool, f: real, m: nat)
    requires Remains(f, half, more) && IsNumber(m)
    ensures Distance(Round(n, half, more) as real, n as real + f) <= Distance(m as real, n as real + f)
  {
    if n < EXACT_LIMIT {
      NearestWhole(n, half, more, f, m);
    } else {
      var rest := HalvedRemains(n, half, more, f);
      var h := EvenIsNearer(n, f, m);
      RoundNearest(n / 2, n % 2 == 1, half || more, rest, h);
      Doubled(Round(n / 2, n % 2 == 1, half || more), h, (n / 2) as real + rest);
    }
  }

  /** No number is nearer to `n` than what it is rounded to. */
  lemma RoundedIsNearest(n: nat, m: nat)
    requires IsNumber(m)
    ensures IsNumber(Rounded(n)) && Distance(Rounded(n) as real, n as real) <= Distance(m as real, n as real)
  {
    RoundGivesNumber(n, false, false);
    RoundNearest(n, false, false, 0.0, m);
  }

  /** Adding one to `n` gives more than `n`. From 2^53 on only every other number has a next one that
      is reached so, and from 2^54 on none has. */
  predicate HasSuccessor(n: nat) {
    n < EXACT_LIMIT || (n < 2 * EXACT_LIMIT && n % 4 == 2)
  }

  /** Adding one and rounding, for one of the program's numbers. */
  lemma NextNumber(n: nat)
    requires IsNumber(n)
    ensures Rounded(n + 1) == if n < EXACT_LIMIT then n + 1 else if HasSuccessor(n) then n + 2 else n
  {
    if n < EXACT_LIMIT {
      RoundDown(n + 1, false);
    } else {
      assert (n + 1) / 2 == n / 2 && Rounded(n + 1) == 2 * Round(n / 2, true, false);
      if n >= 2 * EXACT_LIMIT {
        assert Round(n / 2, true, false) == 2 * Round(n / 2 / 2, false, true);
        RoundDown(n / 2 / 2, true);
      }
    }
  }

  // ---- Versions ----

  /** The version of an index, if its name has one. */
  function VersionOf(name: string): Option<nat> {
    if PREFIX <= name && IsVersion(name[|PREFIX|..]) then Some(Rounded(Value(name[|PREFIX|..]))) else None
  }

  /** A name has a version exactly when that is printed in it, after the prefix; it is rounded. */
  lemma VersionOfMeans(name: string, v: nat)
    ensures VersionOf(name) == Some(v)
       <==> exists n: nat :: n >= 1 && name == "messages-v" + Decimal(n) && v == Rounded(n)
  {
    if VersionOf(name) == Some(v) {
      var digits := name[|PREFIX|..];
      ValueRoundTrip(digits);
      assert name == "messages-v" + digits;
    }
    if n: nat :| n >= 1 && name == "messages-v" + Decimal(n) && v == Rounded(n) {
      DecimalRoundTrip(n);
      assert name[|PREFIX|..] == Decimal(n);
    }
  }

  /** The greatest version of `names`, and at least 1. */
  function MaxVersion(names: seq<string>): nat {
    if names == [] then 1 else
    var rest := MaxVersion(names[1..]);
    var v := VersionOf(names[0]);
    if v.Some? && v.value > rest then v.value else rest
  }

  function NextIndexVersion(names: seq<string>): nat {
    Rounded(MaxVersion(names) + 1)
  }

  /** It is the least number that is at least 1 and at least each version. */
  lemma {:induction false} MaxVersionMeans(names: seq<string>)
    ensures forall name :: name in names && VersionOf(name).Some? ==> VersionOf(name).value <= MaxVersion(names)
    ensures MaxVersion(names) == 1 || exists name :: name in names && VersionOf(name) == Some(MaxVersion(names))
    ensures MaxVersion(names) >= 1
  {
    if names != [] {
      MaxVersionMeans(names[1..]);
      assert forall name :: name in names[1..] ==> name in names;
    }
  }

  lemma {:induction false} MaxVersionIsNumber(names: seq<string>)
    ensures IsNumber(MaxVersion(names))
  {
    if names != [] {
      MaxVersionIsNumber(names[1..]);
      if VersionOf(names[0]).Some? { RoundGivesNumber(Value(names[0][|PREFIX|..]), false, false); }
    }
  }

  // ---- Printing numbers ----

  /** How the program prints a number. */
  type Printer = nat -> string

  predicate PrintsExactly(show: Printer, n: nat) {
    show(n) == Decimal(n)
  }

  predicate ReadsBack(show: Printer, n: nat) {
    IsVersion(show(n)) && Rounded(Value(show(n))) == n
  }

  /** What is known of it: exact numbers are printed in decimal; and any number below 10^21 in digits
      that read back as that number, though not always in those of its exact value. */
  ghost predicate Prints(show: Printer) {
    && (forall n: nat :: n <= EXACT_LIMIT ==> PrintsExactly(show, n))
    && (forall n: nat :: 1 <= n < PLAIN_LIMIT && IsNumber(n) ==> ReadsBack(show, n))
  }

  /** Printing exact values is one such way. */
  lemma DecimalPrints()
    ensures Prints(Decimal)
  {
    forall n: nat | 1 <= n < PLAIN_LIMIT && IsNumber(n) ensures ReadsBack(Decimal, n) {
      DecimalRoundTrip(n);
      RoundDown(n, false);
    }
  }

  // ---- The target of a reindex ----

  /** A name is taken as it is, or completed from a version with or without its letter; no name
      (or an empty one) means the next version. Anything else is refused. */
  function NormalizeTargetIndex(show: Printer, target: Option<string>, sources: seq<string>): Option<string> {
    var t := if target.Some? then target.value else "";
    if PREFIX <= t && IsVersion(t[|PREFIX|..]) then Some(t)
    else if "v" <= t && IsVersion(t[1..]) then Some("messages-" + t)
    else if IsVersion(t) then Some(PREFIX + t)
    else if t != "" then None
    else Some(PREFIX + show(NextIndexVersion(sources)))
  }

  /** Text `t` is version `d`, or `d` with its letter, or a whole index name. */
  predicate Denotes(t: string, d: string) {
    IsVersion(d) && (t == PREFIX + d || t == "v" + d || t == d)
  }

  lemma FormsAccepted(show: Printer, t: string, d: string, sources: seq<string>)
    requires Denotes(t, d)
    ensures NormalizeTargetIndex(show, Some(t), sources) == Some(PREFIX + d)
  {
    assert IsDigit(d[0]) && PREFIX[0] == 'm';
    if t == PREFIX + d {
      assert t[|PREFIX|..] == d;
    } else if t == "v" + d {
      assert t[0] == 'v' && t[1..] == d && "messages-" + t == PREFIX + d;
    } else {
      assert t[0] == d[0];
    }
  }

  /** Exactly the three forms are accepted, and each gives the index of its version. */
  lemma NormalizeMeans(show: Printer, t: string, sources: seq<string>)
    requires t != ""
    ensures NormalizeTargetIndex(show, Some(t), sources).Some? <==> exists d :: Denotes(t, d)
    ensures forall d :: Denotes(t, d) ==> NormalizeTargetIndex(show, Some(t), sources) == Some(PREFIX + d)
  {
    forall d | Denotes(t, d) ensures NormalizeTargetIndex(show, Some(t), sources) == Some(PREFIX + d) {
      FormsAccepted(show, t, d, sources);
    }
    if NormalizeTargetIndex(show, Some(t), sources).Some? {
      assert PREFIX <= t ==> t == PREFIX + t[|PREFIX|..];
      assert "v" <= t ==> t == "v" + t[1..];
      var d := if PREFIX <= t && IsVersion(t[|PREFIX|..]) then t[|PREFIX|..]
               else if "v" <= t && IsVersion(t[1..]) then t[1..] else t;
      assert Denotes(t, d);
    }
  }

  lemma VersionOfPrinted(show: Printer, n: nat)
    requires Prints(show) && 1 <= n < PLAIN_LIMIT && IsNumber(n)
    ensures VersionOf(PREFIX + show(n)) == Some(n)
  {
    assert ReadsBack(show, n);
    assert (PREFIX + show(n))[|PREFIX|..] == show(n);
  }

  lemma NextVersion(sources: seq<string>)
    ensures IsNumber(MaxVersion(sources)) && IsNumber(NextIndexVersion(sources))
    ensures HasSuccessor(MaxVersion(sources)) ==> MaxVersion(sources) < NextIndexVersion(sources) < PLAIN_LIMIT
    ensures !HasSuccessor(MaxVersion(sources)) ==> NextIndexVersion(sources) == MaxVersion(sources)
  {
    MaxVersionIsNumber(sources);
    NextNumber(MaxVersion(sources));
    RoundGivesNumber(MaxVersion(sources) + 1, false, false);
  }

  lemma AboveMaxIsNew(show: Printer, sources: seq<string>, n: nat)
    requires Prints(show) && IsNumber(n) && MaxVersion(sources) < n < PLAIN_LIMIT
    ensures PREFIX + show(n) !in sources
  {
    VersionOfPrinted(show, n);
    MaxVersionMeans(sources);
  }

  /** When the default target is a new name, for any sources whatever: if and only if the greatest version
      has a successor, or is not itself printed in a source's name. */
  lemma DefaultTargetIsNew(show: Printer, sources: seq<string>)
    requires Prints(show)
    ensures NormalizeTargetIndex(show, None, sources).value !in sources
       <==> HasSuccessor(MaxVersion(sources)) || PREFIX + show(MaxVersion(sources)) !in sources
  {
    NextVersion(sources);
    if HasSuccessor(MaxVersion(sources)) { AboveMaxIsNew(show, sources, NextIndexVersion(sources)); }
  }

  lemma UpToLimit(show: Printer, sources: seq<string>, limit: nat)
    requires Prints(show) && limit == EXACT_LIMIT && MaxVersion(sources) <= limit
    ensures NormalizeTargetIndex(show, None, sources).value !in sources <==> PREFIX + show(limit) !in sources
  {
    DefaultTargetIsNew(show, sources);
    if HasSuccessor(MaxVersion(sources)) { AboveMaxIsNew(show, sources, limit); }
  }

  /** Which name it is: below 2^53 that of the next version. */
  lemma DefaultTargetIsNext(show: Printer, sources: seq<string>)
    requires Prints(show) && MaxVersion(sources) < EXACT_LIMIT
    ensures NormalizeTargetIndex(show, None, sources) == Some("messages-v" + Decimal(MaxVersion(sources) + 1))
    ensures NormalizeTargetIndex(show, Some(""), sources) == NormalizeTargetIndex(show, None, sources)
  {
    MaxVersionIsNumber(sources);
    NextNumber(MaxVersion(sources));
    assert PrintsExactly(show, MaxVersion(sources) + 1);
  }

  /** In particular, while no version exceeds 2^53: if and only if the index of version 2^53 is not a source. */
  lemma DefaultTargetUpToLimit(show: Printer, sources: seq<string>)
    requires Prints(show) && MaxVersion(sources) <= EXACT_LIMIT
    ensures NormalizeTargetIndex(show, None, sources).value !in sources
       <==> PREFIX + Decimal(EXACT_LIMIT) !in sources
  {
    UpToLimit(show, sources, EXACT_LIMIT);
    assert PrintsExactly(show, EXACT_LIMIT);
  }

  /** So the default target can be one of the sources. */
  lemma DefaultTargetCanCollide(show: Printer) returns (sources: seq<string>)
    requires Prints(show)
    ensures sources != [] && NormalizeTargetIndex(show, None, sources) == Some(sources[0])
  {
    sources := [PREFIX + show(EXACT_LIMIT)];
    VersionOfPrinted(show, EXACT_LIMIT);
    assert MaxVersion(sources[1..]) == 1;
    assert MaxVersion(sources) == EXACT_LIMIT;
    NextVersion(sources);
  }
}
