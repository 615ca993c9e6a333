/** The token bucket: refilling, taking a token, waiting, and how many tokens any span of time can yield.
    Time is exact; a step is one pass through the acquire loop between two awaits. */
module TokenBuckets {

  datatype Bucket = Bucket(tokens: int, lastRefill: real, interval: real, max: int)

  /** `k` intervals of length `d`. */
  function Times(k: int, d: real): real {
    k as real * d
  }

  lemma TimesAdd(j: int, k: int, d: real)
    ensures Times(j + k, d) == Times(j, d) + Times(k, d)
  {
    Distribute(j as real, k as real, d);
  }

  lemma Distribute(a: real, b: real, d: real)
    ensures (a + b) * d == a * d + b * d
  {
  }

  lemma TimesUnits(d: real)
    ensures Times(0, d) == 0.0 && Times(1, d) == d
  {
  }

  lemma TimesOrder(j: int, k: int, d: real)
    requires d > 0.0
    ensures j <= k <==> Times(j, d) <= Times(k, d)
  {
    if j <= k {
      ScaleOrder(j as real, k as real, d);
    } else {
      StrictScale(k as real, j as real, d);
    }
  }

  lemma ScaleOrder(a: real, b: real, d: real)
    requires d > 0.0 && a <= b
    ensures a * d <= b * d
  {
  }

  lemma StrictScale(a: real, b: real, d: real)
    requires d > 0.0 && a < b
    ensures a * d < b * d
  {
  }

  /** Whole multiples of `d` in `x`. */
  function Quotient(x: real, d: real): int
    requires d > 0.0
  {
    (x / d).Floor
  }

  lemma QuotientBounds(x: real, d: real)
    requires d > 0.0
    ensures Times(Quotient(x, d), d) <= x < Times(Quotient(x, d) + 1, d)
  {
    var q, k := x / d, Quotient(x, d);
    var next := (k + 1) as real;
    assert k as real <= q < next;
    DivMul(x, d);
    ScaleOrder(k as real, q, d);
    StrictScale(q, next, d);
    NextTimes(k, d, next);
  }

  lemma NextTimes(k: int, d: real, next: real)
    requires next == (k + 1) as real
    ensures Times(k + 1, d) == next * d
  {
  }

  lemma DivMul(x: real, d: real)
    requires d > 0.0
    ensures (x / d) * d == x
  {
  }

  /** The quotient is the greatest multiple that fits. */
  lemma QuotientIsGreatest(k: int, x: real, d: real)
    requires d > 0.0
    ensures k <= Quotient(x, d) <==> Times(k, d) <= x
  {
    hide Times, Quotient;
    QuotientBounds(x, d);
    TimesOrder(k, Quotient(x, d), d);
    TimesOrder(Quotient(x, d) + 1, k, d);
  }

  ghost predicate Valid(b: Bucket) {
    b.interval > 0.0 && b.max >= 1 && 0 <= b.tokens <= b.max
  }

  /** Milliseconds per token. */
  function Interval(rps: int): real
    requires rps >= 1
  {
    1000.0 / rps as real
  }

  function NewBucket(rps: int, now: real): Bucket
    requires rps >= 1
  {
    Bucket(rps, now, Interval(rps), rps)
  }

  lemma NewBucketValid(rps: int, now: real)
    requires rps >= 1
    ensures Valid(NewBucket(rps, now))
  {
  }

  function Refill(b: Bucket, now: real): Bucket
    requires b.interval > 0.0
  {
    var due := Quotient(now - b.lastRefill, b.interval);
    if due > 0 then
      b.(tokens := if b.tokens + due <= b.max then b.tokens + due else b.max,
         lastRefill := b.lastRefill + Times(due, b.interval))
    else b
  }

  /** One pass of the loop: the bucket afterwards, and whether it granted a token. */
  function Attempt(b: Bucket, now: real): (Bucket, bool)
    requires b.interval > 0.0
  {
    var r := Refill(b, now);
    if r.tokens > 0 then (r.(tokens := r.tokens - 1), true) else (r, false)
  }

  /** How long a pass that granted nothing sleeps, `again` being its second look at the clock. */
  function Wait(b: Bucket, again: real): real {
    var due := b.interval - (again - b.lastRefill);
    if due > 1.0 then due else 1.0
  }

  class TokenBucket {
    var tokens: int
    var lastRefill: real
    const interval: real
    const max: int

    function View(): Bucket
      reads this
    {
      Bucket(tokens, lastRefill, interval, max)
    }

    constructor (rps: int, now: real)
      requires rps >= 1
      ensures View() == NewBucket(rps, now) && Valid(View())
    {
      interval := Interval(rps);
      max, tokens, lastRefill := rps, rps, now;
    }

    method AcquirePass(now: real, again: real) returns (granted: bool, sleep: real)
      requires Valid(View())
      modifies this
      ensures (View(), granted) == Attempt(old(View()), now) && Valid(View())
      ensures !granted ==> sleep == Wait(View(), again)
    {
      var elapsed := now - lastRefill;
      var newTokens := Quotient(elapsed, interval);
      if newTokens > 0 {
        tokens := if tokens + newTokens <= max then tokens + newTokens else max;
        lastRefill := lastRefill + Times(newTokens, interval);
      }
      if tokens > 0 {
        tokens := tokens - 1;
        return true, 0.0;
      }
      var msUntilNext := interval - (again - lastRefill);
      return false, if msUntilNext > 1.0 then msUntilNext else 1.0;
    }
  }

  // ----- one pass

  /** A bucket looked at no later than `now` and not a full interval behind it. */
  ghost predicate Caught(b: Bucket, now: real) {
    b.lastRefill <= now < b.lastRefill + b.interval
  }

  /** What a pass at `now` does to a bucket: it catches up by `ticks` whole intervals. */
  ghost predicate Effect(b: Bucket, c: Bucket, granted: nat, ticks: int) {
    && Valid(c) && c.interval == b.interval && c.max == b.max
    && c.lastRefill == b.lastRefill + Times(ticks, b.interval)
    && c.tokens + granted <= b.tokens + ticks
  }

  /** A pass gains at most one token per interval it catches up. */
  lemma AttemptEffect(b: Bucket, now: real) returns (ticks: int)
    requires Valid(b) && b.lastRefill <= now
    ensures Effect(b, Attempt(b, now).0, if Attempt(b, now).1 then 1 else 0, ticks)
    ensures Caught(Attempt(b, now).0, now)
    ensures Attempt(b, now).1 ==> Attempt(b, now).0.tokens <= b.max - 1
  {
    hide Times, Quotient;
    ticks := Quotient(now - b.lastRefill, b.interval);
    QuotientBounds(now - b.lastRefill, b.interval);
    TimesUnits(b.interval);
    QuotientIsGreatest(0, now - b.lastRefill, b.interval);
    TimesAdd(ticks, 1, b.interval);
  }

  /** After a pass that granted nothing, the next pass succeeds exactly from one interval after the last refill. */
  lemma NextTokenDue(b: Bucket, t: real)
    requires Valid(b) && b.tokens == 0 && b.lastRefill <= t
    ensures Attempt(b, t).1 <==> t >= b.lastRefill + b.interval
  {
    hide Times, Quotient;
    TimesUnits(b.interval);
    QuotientIsGreatest(1, t - b.lastRefill, b.interval);
  }

  /** Blocking, never dropping: a pass that grants nothing leaves no token, and the pass after its sleep
      succeeds if nobody else came in between. */
  lemma SleepSuffices(b: Bucket, now: real, again: real, wake: real)
    requires Valid(b) && b.lastRefill <= now <= again && !Attempt(b, now).1
    requires wake >= again + Wait(Attempt(b, now).0, again)
    ensures Attempt(Attempt(b, now).0, wake).1
  {
    hide Refill, Times, Quotient;
    var ticks := AttemptEffect(b, now);
    NoTokenLeft(b, now);
    NextTokenDue(Attempt(b, now).0, wake);
  }

  lemma NoTokenLeft(b: Bucket, now: real)
    requires Valid(b) && !Attempt(b, now).1
    ensures Attempt(b, now).0.tokens <= 0
  {
  }

  // ----- any number of passes

  ghost predicate Ordered(times: seq<real>) {
    forall i, j :: 0 <= i < j < |times| ==> times[i] <= times[j]
  }

  /** The bucket after passes at the given times. */
  function After(b: Bucket, times: seq<real>): (r: Bucket)
    requires b.interval > 0.0
    ensures r.interval == b.interval
  {
    if times == [] then b else Attempt(After(b, times[..|times| - 1]), times[|times| - 1]).0
  }

  /** Whether the `k`-th pass is granted a token. */
  function Granted(b: Bucket, times: seq<real>, k: nat): bool
    requires b.interval > 0.0 && k < |times|
  {
    Attempt(After(b, times[..k]), times[k]).1
  }

  /** How many of the passes are granted a token. */
  function Grants(b: Bucket, times: seq<real>): nat
    requires b.interval > 0.0
  {
    if times == [] then 0
    else Grants(b, times[..|times| - 1]) + if Granted(b, times, |times| - 1) then 1 else 0
  }

  lemma {:induction false} RunEffect(b: Bucket, times: seq<real>) returns (ticks: int)
    requires Valid(b) && Ordered(times) && forall i :: 0 <= i < |times| ==> b.lastRefill <= times[i]
    ensures Effect(b, After(b, times), Grants(b, times), ticks)
    ensures times != [] ==> Caught(After(b, times), times[|times| - 1])
    ensures times == [] ==> ticks == 0
  {
    hide Times, Attempt;
    if times == [] {
      ticks := 0;
      TimesUnits(b.interval);
    } else {
      var front, t := times[..|times| - 1], times[|times| - 1];
      var before := RunEffect(b, front);
      var more := AttemptEffect(After(b, front), t);
      TimesAdd(before, more, b.interval);
      ticks := before + more;
    }
  }

  /** From creation to any time, at most the bucket's size plus one token per elapsed interval. */
  lemma TotalBound(b: Bucket, times: seq<real>, t: real)
    requires Valid(b) && b.tokens == b.max && Ordered(times)
    requires forall i :: 0 <= i < |times| ==> b.lastRefill <= times[i] <= t
    requires b.lastRefill <= t
    ensures Grants(b, times) <= b.max + Quotient(t - b.lastRefill, b.interval)
  {
    hide Times, Quotient, Grants, After;
    var ticks := RunEffect(b, times);
    TimesUnits(b.interval);
    QuotientIsGreatest(ticks, t - b.lastRefill, b.interval);
  }

  lemma {:induction false} AfterConcat(b: Bucket, s: seq<real>, t: seq<real>)
    requires b.interval > 0.0
    ensures After(b, s + t) == After(After(b, s), t)
    ensures Grants(b, s + t) == Grants(b, s) + Grants(After(b, s), t)
  {
    if t == [] {
      assert s + t == s;
    } else {
      var n := |t| - 1;
      AfterConcat(b, s, t[..n]);
      assert (s + t)[..|s + t| - 1] == s + t[..n];
    }
  }

  /** Passes `p` to `q`, of which `p` is granted, are granted at most the bucket's size, plus one token per
      interval between their times, plus one. */
  lemma WindowBound(b: Bucket, times: seq<real>, p: nat, q: nat)
    requires Valid(b) && Ordered(times) && p <= q < |times| && Granted(b, times, p)
    requires forall i :: 0 <= i < |times| ==> b.lastRefill <= times[i]
    ensures Grants(b, times[..q + 1]) - Grants(b, times[..p]) <= b.max + Quotient(times[q] - times[p], b.interval) + 1
  {
    hide Times, Quotient, Attempt, Grants, After, Granted;
    var head, first, rest := times[..p], times[p], times[p + 1..q + 1];
    var before := RunEffect(b, head);
    var c := After(b, head);
    CaughtUp(b, head, first);
    var t0 := AttemptEffect(c, first);
    WindowSplit(b, times, p, q);
    SpanBound(Attempt(c, first).0, first, rest, times[q]);
  }

  /** Cutting the passes before `p`, at `p`, and behind it. */
  lemma WindowSplit(b: Bucket, times: seq<real>, p: nat, q: nat)
    requires b.interval > 0.0 && p <= q < |times|
    ensures var d := Attempt(After(b, times[..p]), times[p]).0;
      Grants(b, times[..q + 1]) == Grants(b, times[..p]) + (if Granted(b, times, p) then 1 else 0) + Grants(d, times[p + 1..q + 1])
    ensures Granted(b, times, p) == Attempt(After(b, times[..p]), times[p]).1
  {
    hide Attempt;
    assert times[..p + 1][..p] == times[..p] && times[..p + 1][p] == times[p];
    assert times[..q + 1] == times[..p + 1] + times[p + 1..q + 1];
    AfterConcat(b, times[..p + 1], times[p + 1..q + 1]);
  }

  lemma CaughtUp(b: Bucket, head: seq<real>, now: real)
    requires Valid(b) && Ordered(head) && b.lastRefill <= now
    requires forall i :: 0 <= i < |head| ==> b.lastRefill <= head[i] <= now
    ensures After(b, head).lastRefill <= now
  {
    var ticks := RunEffect(b, head);
  }

  /** A bucket caught up at `now` with tokens for fewer than its size, over the passes until `end`. */
  lemma SpanBound(d: Bucket, now: real, rest: seq<real>, end: real)
    requires Valid(d) && Caught(d, now) && d.tokens <= d.max - 1 && Ordered(rest) && now <= end
    requires forall i :: 0 <= i < |rest| ==> now <= rest[i] <= end
    ensures Grants(d, rest) <= d.max + Quotient(end - now, d.interval)
  {
    hide Times, Quotient, Grants, After;
    var ticks := RunEffect(d, rest);
    TimesUnits(d.interval);
    TimesAdd(ticks - 1, 1, d.interval);
    QuotientIsGreatest(0, end - now, d.interval);
    QuotientIsGreatest(ticks - 1, end - now, d.interval);
  }

  /** The window bound is attained: a token left over and a token just due are taken within one interval. */
  lemma WindowBoundIsTight()
    ensures var b := Bucket(1, 0.0, 1000.0, 1); var times := [999.0, 1000.0];
      && Granted(b, times, 0) && Granted(b, times, 1)
      && Grants(b, times[..2]) - Grants(b, times[..0]) == b.max + Quotient(times[1] - times[0], b.interval) + 1
  {
    var b, times := Bucket(1, 0.0, 1000.0, 1), [999.0, 1000.0];
    assert times[..1] == [999.0] && times[..0] == [] && times[..2] == times;
    assert Attempt(b, 999.0) == (Bucket(0, 0.0, 1000.0, 1), true);
    assert Attempt(Bucket(0, 0.0, 1000.0, 1), 1000.0) == (Bucket(0, 1000.0, 1000.0, 1), true);
  }
}
