/** The retry loop of attemptReconnect: how often it calls Register and how long it waits in between.
    Durations are integers; the product with the multiplier is truncated towards zero as a Go conversion does. */
module Reconnect {
  datatype Config = Config(maxReconnectAttempts: int, initialBackoff: int, maxBackoff: int, multiplier: real)

  /** What happens in one attempt: quit or cancellation at the top, the same while waiting, Register's success. */
  datatype Attempt = Attempt(quitAtTop: bool, quitWhileWaiting: bool, registers: bool)

  function Truncate(x: real): int {
    if x >= 0.0 then x.Floor else -((-x).Floor)
  }

  function NextBackoff(c: Config, backoff: int): int {
    var product := Truncate(backoff as real * c.multiplier);
    if product > c.maxBackoff then c.maxBackoff else product
  }

  /** The backoff after n failed attempts. */
  ghost function Backoff(c: Config, n: nat): int {
    if n == 0 then c.initialBackoff else NextBackoff(c, Backoff(c, n - 1))
  }

  function Max(a: int, b: int): int {
    if a > b then a else b
  }

  function Min(a: int, b: int): int {
    if a < b then a else b
  }

  ghost function Sum(s: seq<int>): int {
    if s == [] then 0 else Sum(s[..|s| - 1]) + s[|s| - 1]
  }

  /** Attempt k ends the run before it registers; the first attempt does not wait. */
  predicate QuitIn(world: nat -> Attempt, k: nat) {
    world(k).quitAtTop || (k > 1 && world(k).quitWhileWaiting)
  }

  /** t is x without its fraction. */
  predicate IsIntegerPart(x: real, t: int) {
    if x >= 0.0 then t as real <= x < t as real + 1.0 else t as real - 1.0 < x <= t as real
  }

  lemma TruncateIsIntegerPart(x: real)
    ensures IsIntegerPart(x, Truncate(x))
  {
    if x < 0.0 {
      var f := (-x).Floor;
      assert (-f) as real == -(f as real);
    }
  }

  ghost predicate IsClipped(x: real, max: int, t: int, r: int) {
    IsIntegerPart(x, t) && r == if t > max then max else t
  }

  /** One backoff follows another: the product with the multiplier, without its fraction, but at most the maximum. */
  ghost predicate Follows(c: Config, before: int, after: int) {
    var product := before as real * c.multiplier;
    exists t :: IsClipped(product, c.maxBackoff, t, after)
  }

  /** The first wait follows the initial backoff, every other one the wait before it. */
  ghost predicate WaitFollows(c: Config, waits: seq<int>, k: nat)
    requires k < |waits|
  {
    Follows(c, if k == 0 then c.initialBackoff else waits[k - 1], waits[k])
  }

  lemma NextBackoffFollows(c: Config, before: int)
    ensures Follows(c, before, NextBackoff(c, before))
  {
    var product := before as real * c.multiplier;
    TruncateIsIntegerPart(product);
    assert IsClipped(product, c.maxBackoff, Truncate(product), NextBackoff(c, before));
  }

  /** `calls` counts the Register calls, `waits` lists the completed waits. The run ends with the first
      success, at the first attempt that quits, or when the attempts are used up. */
  method AttemptReconnect(c: Config, world: nat -> Attempt) returns (connected: bool, calls: nat, waits: seq<int>)
    ensures calls <= Max(0, c.maxReconnectAttempts)
    ensures |waits| == Max(0, calls - 1)
    ensures forall k | 0 <= k < |waits| :: waits[k] == Backoff(c, k + 1)
    ensures forall k: nat | k < |waits| :: WaitFollows(c, waits, k)
    ensures connected <==> calls > 0 && world(calls).registers
    ensures forall k: nat | 1 <= k < calls :: !world(k).registers
    ensures forall k: nat | 1 <= k <= calls :: !QuitIn(world, k)
    ensures !connected && calls < c.maxReconnectAttempts ==> QuitIn(world, calls + 1)
  {
    connected, calls, waits := false, 0, [];
    var backoff := c.initialBackoff;
    var attempt := 1;
    while attempt <= c.maxReconnectAttempts
      invariant 1 <= attempt <= Max(0, c.maxReconnectAttempts) + 1
      invariant calls == attempt - 1 && |waits| == Max(0, calls - 1) && !connected
      invariant backoff == Backoff(c, calls)
      invariant forall k | 0 <= k < |waits| :: waits[k] == Backoff(c, k + 1)
      invariant if calls == 0 then backoff == c.initialBackoff
                else Follows(c, if calls == 1 then c.initialBackoff else waits[calls - 2], backoff)
      invariant forall k: nat | k < |waits| :: WaitFollows(c, waits, k)
      invariant forall k: nat | 1 <= k < attempt :: !world(k).registers
      invariant forall k: nat | 1 <= k <= calls :: !QuitIn(world, k)
    {
      if world(attempt).quitAtTop {
        return;
      }
      if attempt > 1 {
        if world(attempt).quitWhileWaiting {
          return;
        }
        ghost var before := waits;
        waits := waits + [backoff];
        assert WaitFollows(c, waits, |before|);
        assert forall k: nat | k < |before| :: WaitFollows(c, before, k) ==> WaitFollows(c, waits, k);
      }
      calls := calls + 1;
      if world(attempt).registers {
        connected := true;
        return;
      }
      NextBackoffFollows(c, backoff);
      backoff := NextBackoff(c, backoff);
      attempt := attempt + 1;
    }
  }

  /** The configuration of a backoff that grows. */
  predicate Grows(c: Config) {
    c.initialBackoff >= 0 && c.maxBackoff >= 0 && c.multiplier >= 1.0
  }

  lemma NextGrows(c: Config, b: int)
    requires Grows(c) && 0 <= b
    ensures 0 <= NextBackoff(c, b) <= c.maxBackoff
    ensures b <= c.maxBackoff ==> b <= NextBackoff(c, b)
  {
    var x, d := b as real, c.multiplier - 1.0;
    TimesKeepsSign(x, d);
    assert x * c.multiplier == x * (1.0 + d) == x + x * d;
    FloorIsMonotone(x, x * c.multiplier);
  }

  lemma TimesKeepsSign(x: real, y: real)
    requires x >= 0.0 && y >= 0.0
    ensures x * y >= 0.0
  {
  }

  lemma FloorIsMonotone(x: real, y: real)
    requires x <= y
    ensures x.Floor <= y.Floor
  {
  }

  /** From the first wait on, waits lie between 0 and the maximum and never shrink, whatever the multiplier. */
  lemma {:induction false} WaitsNeverShrink(c: Config, n: nat)
    requires Grows(c) && n >= 1
    ensures 0 <= Backoff(c, n) <= Backoff(c, n + 1) <= c.maxBackoff
  {
    if n == 1 {
      assert Backoff(c, 1) == NextBackoff(c, Backoff(c, 0));
      NextGrows(c, c.initialBackoff);
    } else {
      WaitsNeverShrink(c, n - 1);
    }
    NextGrows(c, Backoff(c, n));
  }

  lemma {:induction false} SumIsBounded(s: seq<int>, bound: int)
    requires forall i | 0 <= i < |s| :: s[i] <= bound
    ensures Sum(s) <= |s| * bound
  {
    if s != [] {
      SumIsBounded(s[..|s| - 1], bound);
      assert |s| * bound == (|s| - 1) * bound + bound;
    }
  }

  /** One run waits at most (attempts - 1) times the maximum in total. */
  lemma TotalWaitIsBounded(c: Config, waits: seq<int>)
    requires Grows(c) && c.maxReconnectAttempts >= 1 && |waits| <= c.maxReconnectAttempts - 1
    requires forall k | 0 <= k < |waits| :: waits[k] == Backoff(c, k + 1)
    ensures Sum(waits) <= (c.maxReconnectAttempts - 1) * c.maxBackoff
  {
    forall k | 0 <= k < |waits| ensures waits[k] <= c.maxBackoff {
      WaitsNeverShrink(c, k + 1);
    }
    SumIsBounded(waits, c.maxBackoff);
    assert |waits| * c.maxBackoff <= (c.maxReconnectAttempts - 1) * c.maxBackoff by {
      ScaleLeq(|waits|, c.maxReconnectAttempts - 1, c.maxBackoff);
    }
  }

  /** The bound is met: when the backoff starts at the maximum, every wait is the maximum. */
  lemma TotalWaitIsAttained(c: Config, waits: seq<int>)
    requires Grows(c) && c.initialBackoff == c.maxBackoff
    requires forall k | 0 <= k < |waits| :: waits[k] == Backoff(c, k + 1)
    ensures Sum(waits) == |waits| * c.maxBackoff
  {
    forall k | 0 <= k < |waits| ensures waits[k] == c.maxBackoff {
      SaturatedBackoff(c, k + 1);
    }
    SumOfEquals(waits, c.maxBackoff);
  }

  lemma {:induction false} SaturatedBackoff(c: Config, n: nat)
    requires Grows(c) && c.initialBackoff == c.maxBackoff
    ensures Backoff(c, n) == c.maxBackoff
  {
    if n > 0 {
      SaturatedBackoff(c, n - 1);
      NextGrows(c, c.maxBackoff);
    }
  }

  lemma {:induction false} SumOfEquals(s: seq<int>, x: int)
    requires forall i | 0 <= i < |s| :: s[i] == x
    ensures Sum(s) == |s| * x
  {
    if s != [] {
      SumOfEquals(s[..|s| - 1], x);
      assert |s| * x == (|s| - 1) * x + x;
    }
  }

  lemma ScaleLeq(a: int, b: int, k: int)
    requires a <= b && 0 <= k
    ensures a * k <= b * k
  {
    assert (b - a) * k >= 0;
  }

  /** initial * m^n. */
  ghost function Scaled(initial: nat, m: nat, n: nat): nat {
    if n == 0 then initial else Scaled(initial, m, n - 1) * m
  }

  lemma NextOfInteger(c: Config, m: nat, b: int)
    requires c.multiplier == m as real && 0 <= b
    ensures NextBackoff(c, b) == Min(c.maxBackoff, b * m)
  {
    assert b as real * m as real == (b * m) as real;
    assert b * m >= 0;
  }

  lemma MinTimes(max: int, p: int, m: int)
    requires 0 <= max && 0 <= p && 1 <= m
    ensures Min(max, Min(max, p) * m) == Min(max, p * m)
  {
    if p > max {
      ScaleLeq(max, p, m);
      ScaleLeq(1, m, max);
    }
  }

  /** With an integer multiplier m the wait before attempt n + 1 is min(max, initial * m^n): already the first
      wait is multiplied, and the initial backoff itself is never waited unless m is 1. */
  lemma {:induction false} ClosedForm(c: Config, m: nat, n: nat)
    requires Grows(c) && c.multiplier == m as real && n >= 1
    ensures Backoff(c, n) == Min(c.maxBackoff, Scaled(c.initialBackoff, m, n))
  {
    if n == 1 {
      assert Backoff(c, 1) == NextBackoff(c, Backoff(c, 0));
      NextOfInteger(c, m, c.initialBackoff);
    } else {
      ClosedForm(c, m, n - 1);
      WaitsNeverShrink(c, n - 1);
      NextOfInteger(c, m, Backoff(c, n - 1));
      MinTimes(c.maxBackoff, Scaled(c.initialBackoff, m, n - 1), m);
    }
  }
}
