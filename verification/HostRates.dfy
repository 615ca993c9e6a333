/** The rate a host really gets over any run of the queue: it is set by the first call, its bucket is what its passes made
    of it, and from the last time the bucket was full nothing is held back. */
module HostRates {
  import opened Prelude
  import opened TokenBuckets
  import opened TokenRates
  import opened HostQueue

  /** The first call for a host sets its rate for good: a full bucket of that many tokens, one more every so many
      milliseconds; a later call changes neither, whatever rate it asks for. */
  lemma FirstCallSetsRate(s: System, time: real, host: string, rps: int, t: System)
    requires Step(s, time, Call(host, rps), t)
    ensures host in t.hosts && rps >= 1
    ensures host !in s.hosts ==>
      var h := t.hosts[host];
      h.rps == rps && h.created == time && h.passes == [] && h.bucket == Bucket(rps, time, 1000.0 / rps as real, rps)
    ensures host in s.hosts ==>
      var h := t.hosts[host];
      h.rps == s.hosts[host].rps && h.created == s.hosts[host].created && h.passes == s.hosts[host].passes && h.bucket == s.hosts[host].bucket
    ensures forall other :: other != host ==>
      (other in t.hosts <==> other in s.hosts) && (other in s.hosts ==> t.hosts[other] == s.hosts[other])
  {
  }

  lemma StepKeeps(s: System, time: real, e: Event, t: System, name: string)
    requires Step(s, time, e, t) && name in s.hosts
    ensures name in t.hosts && t.hosts[name].rps == s.hosts[name].rps && t.hosts[name].created == s.hosts[name].created
    ensures s.hosts[name].passes <= t.hosts[name].passes
  {
    hide Attempt;
  }

  /** Rate and start of a host never change, and its passes only grow. */
  lemma {:induction false} HostKeeps(run: seq<System>, m: nat, n: nat, name: string)
    requires IsRun(run) && m <= n < |run| && name in run[m].hosts
    ensures name in run[n].hosts
    ensures run[n].hosts[name].rps == run[m].hosts[name].rps && run[n].hosts[name].created == run[m].hosts[name].created
    ensures run[m].hosts[name].passes <= run[n].hosts[name].passes
    decreases n
  {
    hide Step;
    if m < n {
      HostKeeps(run, m, n - 1, name);
      assert n - 1 + 1 == n;
      assert Moves(run[n - 1], run[n - 1 + 1]);
      var time, e :| Step(run[n - 1], time, e, run[n]);
      StepKeeps(run[n - 1], time, e, run[n], name);
    }
  }

  /** In every reachable state a host's bucket is the one it started with after exactly its passes. */
  lemma BucketIsItsPasses(run: seq<System>, n: nat, name: string)
    requires IsRun(run) && n < |run| && name in run[n].hosts
    ensures var h := run[n].hosts[name];
      && h.rps >= 1 && Ordered(h.passes) && (forall i :: 0 <= i < |h.passes| ==> h.created <= h.passes[i] <= run[n].now)
      && h.bucket == After(NewBucket(h.rps, h.created), h.passes)
  {
    hide IsRun, Chained, LastOn, After;
    RunInv(run, n);
    assert HostOk(run[n], name);
  }

  /** A pass of a family is a pass of its host's bucket at that time, and it is the bucket that grants or denies it. */
  lemma PassIsCounted(run: seq<System>, n: nat, time: real, f: nat)
    requires IsRun(run) && n + 1 < |run| && Step(run[n], time, AcquirePass(f), run[n + 1])
    ensures f < |run[n].families| && run[n].families[f].host in run[n].hosts
    ensures var name := run[n].families[f].host;
      && name in run[n + 1].hosts
      && var h, h' := run[n].hosts[name], run[n + 1].hosts[name];
        && h.rps >= 1 && h.bucket.interval > 0.0
        && h'.passes == h.passes + [time] && h'.bucket == Attempt(h.bucket, time).0
        && Granted(NewBucket(h.rps, h.created), h'.passes, |h.passes|) == Attempt(h.bucket, time).1
  {
    hide IsRun, After, Attempt;
    var name := run[n].families[f].host;
    BucketIsItsPasses(run, n, name);
    var h := run[n].hosts[name];
    assert (h.passes + [time])[..|h.passes|] == h.passes;
  }

  /** In every reachable state, for a pass that was denied: since the last pass that found the bucket full, which there is,
      at least as many passes were granted as the rate and one for every interval in between. */
  lemma SinceLastFull(run: seq<System>, n: nat, name: string, q: nat) returns (p: nat)
    requires IsRun(run) && n < |run| && name in run[n].hosts
    requires var h := run[n].hosts[name];
      h.rps >= 1 && q < |h.passes| && !Granted(NewBucket(h.rps, h.created), h.passes, q)
    ensures var h := run[n].hosts[name]; var b := NewBucket(h.rps, h.created);
      && p < q && FullAt(b, h.passes, p) && (forall i :: p < i <= q ==> !FullAt(b, h.passes, i))
      && Grants(b, h.passes[..q + 1]) - Grants(b, h.passes[..p]) >= h.rps + Quotient(h.passes[q] - h.passes[p], Interval(h.rps))
  {
    hide IsRun, After, Attempt, Grants, Granted, FullAt, Quotient, Interval;
    BucketIsItsPasses(run, n, name);
    var h := run[n].hosts[name];
    var b := NewBucket(h.rps, h.created);
    NewBucketValid(h.rps, h.created);
    p := LastFull(b, h.passes, q);
    SinceFull(b, h.passes, p, q);
  }
}
