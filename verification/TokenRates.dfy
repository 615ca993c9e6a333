/** How much a token bucket yields at least: a burst after a rest, every span in which the bucket does not fill up, and
    the span since it was last full. Together with the upper bounds this fixes the rate. */
module TokenRates {
  import opened TokenBuckets

  // ----- one pass, exactly

  /** How far a pass at `now` catches up. */
  function Due(b: Bucket, now: real): int
    requires b.interval > 0.0
  {
    Quotient(now - b.lastRefill, b.interval)
  }

  /** A pass gains one token for every interval it catches up, as far as the bucket holds them. */
  lemma AttemptExact(b: Bucket, now: real)
    requires Valid(b) && b.lastRefill <= now
    ensures var c, granted, due := Attempt(b, now).0, Attempt(b, now).1, Due(b, now);
      var held := if b.tokens + due <= b.max then b.tokens + due else b.max;
      && due >= 0 && Valid(c) && c.interval == b.interval && c.max == b.max
      && c.lastRefill == b.lastRefill + Times(due, b.interval)
      && (granted <==> held > 0) && c.tokens == held - if granted then 1 else 0
  {
    hide Times, Quotient;
    TimesUnits(b.interval);
    QuotientIsGreatest(0, now - b.lastRefill, b.interval);
  }

  /** Catching up by whole intervals takes as many off what is due. */
  lemma DueAfter(b: Bucket, now: real, later: real)
    requires b.interval > 0.0
    ensures var c := b.(lastRefill := b.lastRefill + Times(Due(b, now), b.interval));
      Due(c, later) == Due(b, later) - Due(b, now)
  {
    hide Times, Quotient;
    var d, k := b.interval, Due(b, now);
    var x := later - b.lastRefill;
    var y := x - Times(k, d);
    var q := Quotient(x, d);
    TimesAdd(q - k, k, d);
    TimesAdd(q - k + 1, k, d);
    QuotientBounds(x, d);
    QuotientIsGreatest(q - k, y, d);
    QuotientIsGreatest(q - k + 1, y, d);
  }

  // ----- a burst

  /** `n` passes at one time. */
  function AtOnce(n: nat, now: real): seq<real> {
    if n == 0 then [] else AtOnce(n - 1, now) + [now]
  }

  lemma {:induction false} Drains(b: Bucket, n: nat, now: real)
    requires Valid(b) && b.lastRefill <= now && b.tokens == 0
    ensures var due := Due(b, now); var held := if due <= b.max then due else b.max;
      && Grants(b, AtOnce(n, now)) == (if n <= held then n else held)
      && (n > 0 ==>
            && After(b, AtOnce(n, now)).tokens == (if n <= held then held - n else 0)
            && After(b, AtOnce(n, now)).lastRefill == b.lastRefill + Times(due, b.interval))
      && Valid(After(b, AtOnce(n, now))) && After(b, AtOnce(n, now)).max == b.max
      && (n == 0 ==> After(b, AtOnce(n, now)) == b) && b.max >= 0 && due >= 0
  {
    hide Attempt, Times, Due;
    AttemptExact(b, now);
    if n > 0 {
      Drains(b, n - 1, now);
      var front, all := AtOnce(n - 1, now), AtOnce(n, now);
      assert all[..|all| - 1] == front && all[|all| - 1] == now;
      var c := After(b, front);
      Behind(b, now);
      if n > 1 {
        DueAgain(b, c, now);
      }
      AttemptExact(c, now);
      TimesUnits(b.interval);
    }
  }

  /** Having caught up at `now`, nothing more is due at `now`. */
  lemma DueAgain(b: Bucket, c: Bucket, now: real)
    requires b.interval > 0.0 && c.interval == b.interval && c.lastRefill == b.lastRefill + Times(Due(b, now), b.interval)
    ensures Due(c, now) == 0
  {
    hide Times, Quotient;
    DueAfter(b, now, now);
  }

  lemma Behind(b: Bucket, now: real)
    requires Valid(b) && b.lastRefill <= now
    ensures b.lastRefill + Times(Due(b, now), b.interval) <= now
  {
    hide Times, Quotient;
    QuotientBounds(now - b.lastRefill, b.interval);
  }

  /** An empty bucket left alone for `k` whole intervals grants any burst exactly the lesser of `k` and its size. */
  lemma BurstAfterRest(b: Bucket, k: nat, n: nat, now: real)
    requires Valid(b) && b.tokens == 0
    requires b.lastRefill + Times(k, b.interval) <= now < b.lastRefill + Times(k + 1, b.interval)
    ensures Grants(b, AtOnce(n, now)) == if n <= k && n <= b.max then n else if k <= b.max then k else b.max
  {
    hide Times, Due, Grants, After, AtOnce;
    TimesUnits(b.interval);
    TimesOrder(0, k, b.interval);
    DueIs(b, k, now);
    Drains(b, n, now);
  }

  lemma DueIs(b: Bucket, k: nat, now: real)
    requires Valid(b) && b.lastRefill + Times(k, b.interval) <= now < b.lastRefill + Times(k + 1, b.interval)
    ensures Due(b, now) == k
  {
    hide Times, Quotient;
    var x := now - b.lastRefill;
    QuotientIsGreatest(k, x, b.interval);
    QuotientIsGreatest(k + 1, x, b.interval);
  }

  // ----- spans in which the bucket does not fill up

  /** At no pass would the tokens gained since the start exceed the bucket. */
  ghost predicate NeverFills(b: Bucket, times: seq<real>)
    requires b.interval > 0.0
  {
    forall i :: 0 <= i < |times| ==> b.tokens + Due(b, times[i]) - Grants(b, times[..i]) <= b.max
  }

  /** Then every token is accounted for: what is left and what was granted is what was there and what fell due. */
  lemma {:induction false} NoneWasted(b: Bucket, times: seq<real>)
    requires Valid(b) && Ordered(times) && (forall i :: 0 <= i < |times| ==> b.lastRefill <= times[i])
    requires NeverFills(b, times)
    ensures var c := After(b, times);
      && Valid(c) && c.max == b.max
      && (times == [] ==> c == b && Grants(b, times) == 0)
      && (times != [] ==>
            && c.tokens + Grants(b, times) == b.tokens + Due(b, times[|times| - 1])
            && c.lastRefill == b.lastRefill + Times(Due(b, times[|times| - 1]), b.interval))
  {
    hide Attempt, Times, Due;
    if times != [] {
      var n := |times| - 1;
      var front, t := times[..n], times[n];
      FillsPrefix(b, times);
      NoneWasted(b, front);
      var c := After(b, front);
      if n > 0 {
        Behind(b, times[n - 1]);
        DueAfter(b, times[n - 1], t);
        SameDue(b, c, times[n - 1], t);
        TimesAdd(Due(b, times[n - 1]), Due(c, t), b.interval);
      }
      AttemptExact(c, t);
    }
  }

  lemma SameDue(b: Bucket, c: Bucket, now: real, later: real)
    requires b.interval > 0.0 && c.interval == b.interval && c.lastRefill == b.lastRefill + Times(Due(b, now), b.interval)
    ensures Due(c, later) == Due(b, later) - Due(b, now)
  {
    hide Times, Quotient;
    DueAfter(b, now, later);
  }

  lemma FillsPrefix(b: Bucket, times: seq<real>)
    requires b.interval > 0.0 && times != [] && NeverFills(b, times)
    ensures NeverFills(b, times[..|times| - 1])
    ensures b.tokens + Due(b, times[|times| - 1]) - Grants(b, times[..|times| - 1]) <= b.max
  {
    hide Due, Grants;
    var front := times[..|times| - 1];
    assert forall i :: 0 <= i < |front| ==> front[..i] == times[..i];
  }

  /** While the bucket never fills, a pass that is denied means: granted so far is exactly what was there at the start
      and one token for every interval since. */
  lemma DeniedMeansSpent(b: Bucket, times: seq<real>, q: nat)
    requires Valid(b) && Ordered(times) && q < |times| && (forall i :: 0 <= i < |times| ==> b.lastRefill <= times[i])
    requires NeverFills(b, times[..q + 1]) && !Granted(b, times, q)
    ensures Grants(b, times[..q + 1]) == b.tokens + Quotient(times[q] - b.lastRefill, b.interval)
  {
    hide Attempt, Quotient, NeverFills;
    var all := times[..q + 1];
    assert all[..|all| - 1] == times[..q] && all[|all| - 1] == times[q];
    NoneWasted(b, all);
    DeniedIsEmpty(After(b, times[..q]), times[q]);
    NoneWastedBefore(b, times, q);
  }

  lemma NoneWastedBefore(b: Bucket, times: seq<real>, q: nat)
    requires Valid(b) && Ordered(times) && q < |times| && (forall i :: 0 <= i < |times| ==> b.lastRefill <= times[i])
    ensures Valid(After(b, times[..q])) && After(b, times[..q]).lastRefill <= times[q]
  {
    hide Times;
    CaughtUp(b, times[..q], times[q]);
    var ticks := RunEffect(b, times[..q]);
  }

  lemma DeniedIsEmpty(b: Bucket, now: real)
    requires b.interval > 0.0 && !Attempt(b, now).1
    ensures Attempt(b, now).0.tokens <= 0
  {
    hide Quotient, Times;
  }

  // ----- since the bucket was last full

  /** The `p`-th pass found the bucket full. */
  ghost predicate FullAt(b: Bucket, times: seq<real>, p: nat)
    requires b.interval > 0.0 && p < |times|
  {
    Granted(b, times, p) && After(b, times[..p + 1]).tokens == b.max - 1
  }

  /** The passes behind `p`, as seen from there. */
  lemma FromThere(b: Bucket, times: seq<real>, p: nat, i: nat)
    requires b.interval > 0.0 && p < i < |times|
    ensures var d, rest := After(b, times[..p + 1]), times[p + 1..];
      && After(b, times[..i]) == After(d, rest[..i - p - 1])
      && Granted(b, times, i) == Granted(d, rest, i - p - 1)
  {
    hide Attempt, After, Grants;
    var rest := times[p + 1..];
    assert times[..i] == times[..p + 1] + rest[..i - p - 1];
    AfterConcat(b, times[..p + 1], rest[..i - p - 1]);
  }

  /** If the bucket is not found full again, it does not fill up. */
  lemma {:induction false} NotFullAgain(d: Bucket, rest: seq<real>)
    requires Valid(d) && Ordered(rest) && (forall i :: 0 <= i < |rest| ==> d.lastRefill <= rest[i])
    requires forall i :: 0 <= i < |rest| ==> !FullAt(d, rest, i)
    ensures NeverFills(d, rest)
  {
    hide Attempt, Due, FullAt;
    if rest != [] {
      var n := |rest| - 1;
      var front := rest[..n];
      forall i | 0 <= i < |front|
        ensures !FullAt(d, front, i)
      {
        SameFull(d, rest, i);
      }
      NotFullAgain(d, front);
      NoneWasted(d, front);
      LastFits(d, rest);
      forall i | 0 <= i < |rest|
        ensures d.tokens + Due(d, rest[i]) - Grants(d, rest[..i]) <= d.max
      {
        if i < n {
          assert front[..i] == rest[..i] && front[i] == rest[i];
        }
      }
    }
  }

  lemma SameFull(d: Bucket, rest: seq<real>, i: nat)
    requires d.interval > 0.0 && i + 1 < |rest|
    ensures FullAt(d, rest[..|rest| - 1], i) <==> FullAt(d, rest, i)
  {
    hide Attempt;
    var front := rest[..|rest| - 1];
    assert front[..i] == rest[..i] && front[..i + 1] == rest[..i + 1];
  }

  lemma LastFits(d: Bucket, rest: seq<real>)
    requires Valid(d) && rest != [] && Ordered(rest) && (forall i :: 0 <= i < |rest| ==> d.lastRefill <= rest[i])
    requires NeverFills(d, rest[..|rest| - 1]) && !FullAt(d, rest, |rest| - 1)
    ensures d.tokens + Due(d, rest[|rest| - 1]) - Grants(d, rest[..|rest| - 1]) <= d.max
  {
    hide Attempt, Due, Times;
    var n := |rest| - 1;
    var front := rest[..n];
    assert rest[..n + 1] == rest;
    NoneWasted(d, front);
    NoneWastedBefore(d, rest, n);
    var c := After(d, front);
    if n > 0 {
      SameDue(d, c, rest[n - 1], rest[n]);
    }
    AttemptExact(c, rest[n]);
  }

  /** In general: from a pass `p` that found the bucket full, without another such pass, to a pass `q` that is denied,
      exactly the bucket's size is granted and one token for every interval since the bucket was brought up to date at
      `p`, which is less than one interval before `p`. */
  lemma SinceFull(b: Bucket, times: seq<real>, p: nat, q: nat)
    requires Valid(b) && Ordered(times) && p < q < |times| && (forall i :: 0 <= i < |times| ==> b.lastRefill <= times[i])
    requires FullAt(b, times, p) && (forall i :: p < i <= q ==> !FullAt(b, times, i)) && !Granted(b, times, q)
    ensures var d := After(b, times[..p + 1]);
      && times[p] - b.interval < d.lastRefill <= times[p]
      && Grants(b, times[..q + 1]) - Grants(b, times[..p]) == b.max + Quotient(times[q] - d.lastRefill, b.interval)
    ensures Grants(b, times[..q + 1]) - Grants(b, times[..p]) >= b.max + Quotient(times[q] - times[p], b.interval)
  {
    hide Attempt, Quotient, FullAt, After, Grants, Granted;
    var d := After(b, times[..p + 1]);
    SpanStart(b, times, p);
    SpanDenied(b, times, p, q);
    SpanGrants(b, times, p, q);
    LaterIsLess(d.lastRefill, times[p], times[q], b.interval);
  }

  /** The passes behind a full one, up to a denied one. */
  lemma SpanDenied(b: Bucket, times: seq<real>, p: nat, q: nat)
    requires Valid(b) && Ordered(times) && p < q < |times| && (forall i :: 0 <= i < |times| ==> b.lastRefill <= times[i])
    requires FullAt(b, times, p) && (forall i :: p < i <= q ==> !FullAt(b, times, i)) && !Granted(b, times, q)
    ensures var d := After(b, times[..p + 1]);
      Grants(d, times[p + 1..][..q - p]) == d.tokens + Quotient(times[q] - d.lastRefill, d.interval)
  {
    hide Attempt, Quotient, FullAt, After, Grants, Granted;
    var d, rest := After(b, times[..p + 1]), times[p + 1..];
    var tail := rest[..q - p];
    SpanStart(b, times, p);
    forall i | 0 <= i < |tail|
      ensures !FullAt(d, tail, i)
    {
      FullFromThere(b, times, p, q, i);
    }
    NotFullAgain(d, tail);
    FromThere(b, times, p, q);
    TailGranted(d, rest, q - p - 1);
    assert tail[..q - p - 1 + 1] == tail;
    DeniedMeansSpent(d, tail, q - p - 1);
  }

  lemma TailGranted(d: Bucket, rest: seq<real>, i: nat)
    requires d.interval > 0.0 && i < |rest|
    ensures Granted(d, rest[..i + 1], i) == Granted(d, rest, i)
  {
    assert rest[..i + 1][..i] == rest[..i];
  }

  lemma LaterIsLess(early: real, late: real, end: real, d: real)
    requires d > 0.0 && early <= late
    ensures Quotient(end - late, d) <= Quotient(end - early, d)
  {
    hide Quotient, Times;
    QuotientIsGreatest(Quotient(end - late, d), end - early, d);
    QuotientBounds(end - late, d);
  }

  lemma SpanStart(b: Bucket, times: seq<real>, p: nat)
    requires Valid(b) && Ordered(times) && p < |times| && (forall i :: 0 <= i < |times| ==> b.lastRefill <= times[i])
    requires FullAt(b, times, p)
    ensures var d := After(b, times[..p + 1]);
      && Valid(d) && d.max == b.max && d.tokens == b.max - 1
      && times[p] - b.interval < d.lastRefill <= times[p]
      && Grants(b, times[..p + 1]) == Grants(b, times[..p]) + 1
  {
    hide Attempt, Times;
    var all := times[..p + 1];
    assert all[..|all| - 1] == times[..p] && all[|all| - 1] == times[p];
    var ticks := RunEffect(b, all);
  }

  lemma FullFromThere(b: Bucket, times: seq<real>, p: nat, q: nat, i: nat)
    requires Valid(b) && p < q < |times| && i < q - p && !FullAt(b, times, p + 1 + i)
    requires After(b, times[..p + 1]).max == b.max
    ensures !FullAt(After(b, times[..p + 1]), times[p + 1..][..q - p], i)
  {
    hide Attempt;
    var d, rest := After(b, times[..p + 1]), times[p + 1..];
    var tail := rest[..q - p];
    FromThere(b, times, p, p + 1 + i);
    assert tail[..i] == rest[..i] && tail[..i + 1] == rest[..i + 1] && tail[i] == times[p + 1 + i];
    assert times[..p + 1 + i + 1] == times[..p + 1] + rest[..i + 1];
    AfterConcat(b, times[..p + 1], rest[..i + 1]);
  }

  lemma SpanGrants(b: Bucket, times: seq<real>, p: nat, q: nat)
    requires b.interval > 0.0 && p < q < |times|
    ensures Grants(b, times[..q + 1]) == Grants(b, times[..p + 1]) + Grants(After(b, times[..p + 1]), times[p + 1..][..q - p])
  {
    hide Attempt;
    var rest := times[p + 1..];
    assert times[..q + 1] == times[..p + 1] + rest[..q - p];
    AfterConcat(b, times[..p + 1], rest[..q - p]);
  }

  /** A bucket that starts full is found full by its first pass, so every denied pass has a last full one before it. */
  lemma LastFull(b: Bucket, times: seq<real>, q: nat) returns (p: nat)
    requires Valid(b) && b.tokens == b.max && Ordered(times) && q < |times|
    requires (forall i :: 0 <= i < |times| ==> b.lastRefill <= times[i]) && !Granted(b, times, q)
    ensures p < q && FullAt(b, times, p) && forall i :: p < i <= q ==> !FullAt(b, times, i)
  {
    hide Attempt, After;
    FirstIsFull(b, times);
    p := q;
    while !FullAt(b, times, p)
      invariant p <= q && FullAt(b, times, 0)
      invariant forall i :: p < i <= q ==> !FullAt(b, times, i)
      decreases p
    {
      p := p - 1;
    }
  }

  lemma FirstIsFull(b: Bucket, times: seq<real>)
    requires Valid(b) && b.tokens == b.max && times != [] && b.lastRefill <= times[0]
    ensures FullAt(b, times, 0)
  {
    hide Attempt;
    assert times[..0] == [] && times[..1] == [times[0]] && times[..1][..0] == [];
    AttemptExact(b, times[0]);
  }

  // ----- the rate

  lemma {:induction false} WholeSeconds(rps: int, seconds: nat)
    requires rps >= 1
    ensures Times(rps * seconds, Interval(rps)) == 1000.0 * seconds as real
  {
    var r := rps as real;
    DivMul(1000.0, r);
    Rearrange(r, seconds as real, Interval(rps));
    ProductAsReal(rps, seconds);
  }

  lemma ProductAsReal(a: int, b: int)
    ensures (a * b) as real == a as real * b as real
  {
  }

  lemma Rearrange(r: real, s: real, d: real)
    requires d * r == 1000.0
    ensures (r * s) * d == 1000.0 * s
  {
    assert (r * s) * d == (d * r) * s;
  }

  /** A new bucket is full with `rps` tokens, and in whole seconds exactly `rps` times as many fall due. */
  lemma RateIsRps(rps: int, now: real, seconds: nat)
    requires rps >= 1
    ensures var b := NewBucket(rps, now);
      && b.tokens == b.max == rps && b.lastRefill == now && b.interval > 0.0
      && Due(b, now + 1000.0 * seconds as real) == rps * seconds
  {
    hide Times, Quotient;
    var b := NewBucket(rps, now);
    var x := 1000.0 * seconds as real;
    WholeSeconds(rps, seconds);
    NewBucketValid(rps, now);
    TimesOrder(rps * seconds, rps * seconds + 1, b.interval);
    TimesAdd(rps * seconds, 1, b.interval);
    TimesUnits(b.interval);
    QuotientIsGreatest(rps * seconds, x, b.interval);
    QuotientIsGreatest(rps * seconds + 1, x, b.interval);
  }

  // ----- sleeping

  /** A denied pass sleeps at least a millisecond, and beyond that no longer than it must: any earlier pass is denied. */
  lemma SleepsNoLonger(b: Bucket, now: real, again: real, wake: real)
    requires Valid(b) && b.lastRefill <= now <= again <= wake && !Attempt(b, now).1
    requires Attempt(Attempt(b, now).0, wake).1
    ensures var sleep := Wait(Attempt(b, now).0, again); sleep >= 1.0 && (sleep > 1.0 ==> wake >= again + sleep)
  {
    hide Refill, Times, Quotient;
    var ticks := AttemptEffect(b, now);
    NoTokenLeft(b, now);
    NextTokenDue(Attempt(b, now).0, wake);
  }
}
