/** Scanner families queued per host (`withHostBudget`): each call chains onto the host's tail promise,
    and all families of a host draw on one bucket. A step is what runs between two awaits. */
module HostQueue {
  import opened Prelude
  import opened TokenBuckets

  /** `Broken` is a family whose function threw before returning a promise. An acquire loop that a family began
      goes on after it has settled or thrown. */
  datatype Phase = Waiting | Running | Settled | Broken

  /** `prev` is the family whose promise was the host's tail when this one was called. */
  datatype Family = Family(host: string, prev: Option<nat>, phase: Phase)

  /** `passes` records the times of all acquire passes on the host's bucket. */
  datatype Host = Host(tail: Option<nat>, bucket: Bucket, rps: int, created: real, passes: seq<real>)

  datatype System = System(hosts: map<string, Host>, families: seq<Family>, now: real)

  datatype Event =
    | Call(host: string, rps: int)
    | Start(family: nat)
    | Settle(family: nat)
    | Throw(family: nat)
    | AcquirePass(family: nat)

  function NewHost(rps: int, now: real): Host
    requires rps >= 1
  {
    Host(None, NewBucket(rps, now), rps, now, [])
  }

  /** The predecessor's promise has resolved, so the family's turn has come. */
  predicate Turn(s: System, f: nat)
    requires f < |s.families|
  {
    && s.families[f].phase == Waiting
    && (s.families[f].prev.None? || (s.families[f].prev.value < |s.families| && s.families[s.families[f].prev.value].phase == Settled))
  }

  predicate Enabled(s: System, e: Event) {
    match e
    case Call(_, rps) => rps >= 1
    case Start(f) => f < |s.families| && Turn(s, f)
    case Throw(f) => f < |s.families| && Turn(s, f)
    case Settle(f) => f < |s.families| && s.families[f].phase == Running
    case AcquirePass(f) =>
      f < |s.families| && s.families[f].phase != Waiting && s.families[f].host in s.hosts
      && s.hosts[s.families[f].host].bucket.interval > 0.0
  }

  function SetPhase(s: System, f: nat, phase: Phase): System
    requires f < |s.families|
  {
    s.(families := s.families[f := s.families[f].(phase := phase)])
  }

  function Apply(s: System, e: Event): System
    requires Enabled(s, e)
  {
    match e
    case Call(host, rps) =>
      var h := if host in s.hosts then s.hosts[host] else NewHost(rps, s.now);
      s.(hosts := s.hosts[host := h.(tail := Some(|s.families|))],
         families := s.families + [Family(host, h.tail, Waiting)])
    case Start(f) => SetPhase(s, f, Running)
    case Throw(f) => SetPhase(s, f, Broken)
    case Settle(f) => SetPhase(s, f, Settled)
    case AcquirePass(f) =>
      var name := s.families[f].host;
      var h := s.hosts[name];
      s.(hosts := s.hosts[name := h.(bucket := Attempt(h.bucket, s.now).0, passes := h.passes + [s.now])])
  }

  /** One step of a run: the clock has moved on to `time`, then the event happens. */
  ghost predicate Step(s: System, time: real, e: Event, t: System) {
    s.now <= time && Enabled(s.(now := time), e) && t == Apply(s.(now := time), e)
  }

  ghost predicate Moves(s: System, t: System) {
    exists time, e :: Step(s, time, e, t)
  }

  /** `run[0]` is the empty registry; each state follows from the one before. */
  ghost predicate IsRun(run: seq<System>) {
    && |run| > 0 && run[0].hosts == map[] && run[0].families == []
    && forall i :: 0 <= i < |run| - 1 ==> Moves(run[i], run[i + 1])
  }

  // ----- the chain

  /** The last family before `n` on the host, if any. */
  function LastOn(families: seq<Family>, host: string, n: nat): Option<nat>
    requires n <= |families|
  {
    if n == 0 then None
    else if families[n - 1].host == host then Some(n - 1)
    else LastOn(families, host, n - 1)
  }

  /** Every family waits on the one called just before it on its host, and every family that has
      begun was preceded only by settled ones. */
  ghost predicate Chained(families: seq<Family>) {
    && (forall f :: 0 <= f < |families| ==> families[f].prev == LastOn(families, families[f].host, f))
    && (forall f, g :: 0 <= f < g < |families| && families[f].host == families[g].host && families[g].phase != Waiting
          ==> families[f].phase == Settled)
  }

  ghost predicate HostOk(s: System, name: string)
    requires name in s.hosts
  {
    var h := s.hosts[name];
    && h.tail == LastOn(s.families, name, |s.families|)
    && h.rps >= 1 && h.created <= s.now
    && Ordered(h.passes) && (forall i :: 0 <= i < |h.passes| ==> h.created <= h.passes[i] <= s.now)
    && h.bucket == After(NewBucket(h.rps, h.created), h.passes)
  }

  ghost predicate Inv(s: System) {
    && Chained(s.families)
    && (forall f :: 0 <= f < |s.families| ==> s.families[f].host in s.hosts)
    && (forall name :: name in s.hosts ==> HostOk(s, name))
  }

  lemma {:induction false} LastOnIs(families: seq<Family>, host: string, n: nat)
    requires n <= |families|
    ensures var r := LastOn(families, host, n);
      && (r.None? ==> forall f :: 0 <= f < n ==> families[f].host != host)
      && (r.Some? ==> r.value < n && families[r.value].host == host)
      && (r.Some? ==> forall f :: r.value < f < n ==> families[f].host != host)
  {
    if n > 0 && families[n - 1].host != host {
      LastOnIs(families, host, n - 1);
    }
  }

  /** Only the hosts of the families matter. */
  lemma {:induction false} LastOnSame(a: seq<Family>, b: seq<Family>, host: string, n: nat)
    requires n <= |a| && n <= |b| && forall f :: 0 <= f < n ==> a[f].host == b[f].host
    ensures LastOn(a, host, n) == LastOn(b, host, n)
  {
    if n > 0 {
      LastOnSame(a, b, host, n - 1);
    }
  }

  /** When its turn comes, all earlier families of the host have settled. */
  lemma TurnMeans(s: System, f: nat)
    requires Chained(s.families) && f < |s.families| && Turn(s, f)
    ensures forall g :: 0 <= g < f && s.families[g].host == s.families[f].host ==> s.families[g].phase == Settled
  {
    hide Chained, LastOn;
    LastOnIs(s.families, s.families[f].host, f);
    PrevIs(s.families, f);
    var prev := s.families[f].prev;
    if prev.Some? {
      BegunMeans(s.families, prev.value);
    }
  }

  /** A family that has begun comes after settled ones only. */
  lemma BegunMeans(families: seq<Family>, f: nat)
    requires Chained(families) && f < |families| && families[f].phase != Waiting
    ensures forall g :: 0 <= g < f && families[g].host == families[f].host ==> families[g].phase == Settled
  {
    hide LastOn;
  }

  lemma PrevIs(families: seq<Family>, f: nat)
    requires Chained(families) && f < |families|
    ensures families[f].prev == LastOn(families, families[f].host, f)
  {
    hide LastOn;
  }

  /** A waiting family's successors are waiting too. */
  lemma PhaseChained(s: System, f: nat, phase: Phase)
    requires Chained(s.families) && f < |s.families|
    requires forall g :: 0 <= g < f && s.families[g].host == s.families[f].host ==> s.families[g].phase == Settled
    requires (s.families[f].phase == Waiting && phase != Waiting) || (s.families[f].phase == Running && phase == Settled)
    ensures Chained(SetPhase(s, f, phase).families)
  {
    var t := SetPhase(s, f, phase);
    forall g | 0 <= g < |t.families|
      ensures t.families[g].prev == LastOn(t.families, t.families[g].host, g)
    {
      LastOnSame(s.families, t.families, s.families[g].host, g);
    }
  }

  lemma CallChained(families: seq<Family>, host: string)
    requires Chained(families)
    ensures Chained(families + [Family(host, LastOn(families, host, |families|), Waiting)])
  {
    var now := families + [Family(host, LastOn(families, host, |families|), Waiting)];
    forall g | 0 <= g < |now|
      ensures now[g].prev == LastOn(now, now[g].host, g)
    {
      LastOnSame(families, now, now[g].host, g);
    }
  }

  lemma PhaseInv(s: System, f: nat, phase: Phase)
    requires Inv(s) && f < |s.families| && Chained(SetPhase(s, f, phase).families)
    ensures Inv(SetPhase(s, f, phase))
  {
    hide After, Ordered, Chained;
    var t := SetPhase(s, f, phase);
    forall name | name in t.hosts
      ensures HostOk(t, name)
    {
      assert HostOk(s, name);
      LastOnSame(s.families, t.families, name, |s.families|);
    }
  }

  lemma ClockInv(s: System, time: real)
    requires Inv(s) && s.now <= time
    ensures Inv(s.(now := time))
  {
    hide After, Ordered, Chained, LastOn;
    var t := s.(now := time);
    forall name | name in t.hosts
      ensures HostOk(t, name)
    {
      assert HostOk(s, name);
    }
  }

  lemma CallInv(s: System, host: string, rps: int)
    requires Inv(s) && rps >= 1
    ensures Inv(Apply(s, Call(host, rps)))
  {
    hide After, Chained;
    var t := Apply(s, Call(host, rps));
    NoFamilyYet(s, host);
    CallChained(s.families, host);
    forall name | name in t.hosts
      ensures HostOk(t, name)
    {
      LastOnSame(s.families, t.families, name, |s.families|);
      if name in s.hosts {
        assert HostOk(s, name);
      } else {
        NewBucketRun(rps, s.now);
      }
    }
    forall f | 0 <= f < |t.families|
      ensures t.families[f].host in t.hosts
    {
    }
  }

  lemma NewBucketRun(rps: int, now: real)
    requires rps >= 1
    ensures NewBucket(rps, now) == After(NewBucket(rps, now), [])
  {
  }

  lemma NoFamilyYet(s: System, host: string)
    requires Inv(s)
    ensures host in s.hosts ==> s.hosts[host].tail == LastOn(s.families, host, |s.families|)
    ensures host !in s.hosts ==> LastOn(s.families, host, |s.families|) == None
  {
    hide After, Ordered, Chained;
    LastOnIs(s.families, host, |s.families|);
    if host in s.hosts {
      assert HostOk(s, host);
    }
  }

  lemma PassesGrow(s: System, f: nat, t: System)
    requires Inv(s) && Enabled(s, AcquirePass(f)) && t == Apply(s, AcquirePass(f))
    ensures HostOk(t, s.families[f].host)
  {
    hide Chained, LastOn, Attempt;
    assert HostOk(s, s.families[f].host);
    var h := s.hosts[s.families[f].host];
    assert (h.passes + [s.now])[..|h.passes|] == h.passes;
  }

  lemma OtherHost(s: System, t: System, name: string)
    requires name in s.hosts && HostOk(s, name)
    requires name in t.hosts && t.hosts[name] == s.hosts[name] && t.families == s.families && t.now == s.now
    ensures HostOk(t, name)
  {
    hide LastOn, Ordered, After;
  }

  lemma AcquireInv(s: System, f: nat)
    requires Inv(s) && Enabled(s, AcquirePass(f))
    ensures Inv(Apply(s, AcquirePass(f)))
  {
    hide Chained, HostOk, LastOn, Attempt;
    var t := Apply(s, AcquirePass(f));
    forall name | name in t.hosts
      ensures HostOk(t, name)
    {
      if name == s.families[f].host {
        PassesGrow(s, f, t);
      } else {
        OtherHost(s, t, name);
      }
    }
  }

  lemma StepInv(s: System, time: real, e: Event, t: System)
    requires Inv(s) && Step(s, time, e, t)
    ensures Inv(t)
  {
    hide Inv, Chained, Attempt;
    var r := s.(now := time);
    ClockInv(s, time);
    InvChained(r);
    match e
    case Call(host, rps) => CallInv(r, host, rps);
    case Start(f) =>
      TurnMeans(r, f);
      PhaseChained(r, f, Running);
      PhaseInv(r, f, Running);
    case Throw(f) =>
      TurnMeans(r, f);
      PhaseChained(r, f, Broken);
      PhaseInv(r, f, Broken);
    case Settle(f) =>
      RunningMeans(r, f);
      PhaseChained(r, f, Settled);
      PhaseInv(r, f, Settled);
    case AcquirePass(f) => AcquireInv(r, f);
  }

  lemma InvChained(s: System)
    requires Inv(s)
    ensures Chained(s.families)
  {
  }

  lemma RunningMeans(s: System, f: nat)
    requires Chained(s.families) && f < |s.families| && s.families[f].phase == Running
    ensures forall g :: 0 <= g < f && s.families[g].host == s.families[f].host ==> s.families[g].phase == Settled
  {
  }

  lemma {:induction false} RunInv(run: seq<System>, n: nat)
    requires IsRun(run) && n < |run|
    ensures Inv(run[n])
  {
    hide Inv, Step;
    if n == 0 {
      StartInv(run[0]);
    } else {
      RunInv(run, n - 1);
      assert n - 1 + 1 == n;
      assert Moves(run[n - 1], run[n - 1 + 1]);
      var time, e :| Step(run[n - 1], time, e, run[n]);
      StepInv(run[n - 1], time, e, run[n]);
    }
  }

  lemma StartInv(s: System)
    requires s.hosts == map[] && s.families == []
    ensures Inv(s)
  {
  }

  // ----- what every run guarantees

  /** At most one family of a host is running, and a family begins only when all families called
      before it on that host have settled. */
  lemma HostIsSerial(run: seq<System>, n: nat, f: nat, g: nat)
    requires IsRun(run) && n < |run| && f < g < |run[n].families|
    requires run[n].families[f].host == run[n].families[g].host
    ensures run[n].families[g].phase != Waiting ==> run[n].families[f].phase == Settled
    ensures !(run[n].families[f].phase == Running && run[n].families[g].phase == Running)
  {
    hide IsRun;
    RunInv(run, n);
  }

  /** All families of a host together: from the host's first use to any later time. */
  lemma HostTotalBound(run: seq<System>, n: nat, name: string, t: real)
    requires IsRun(run) && n < |run| && name in run[n].hosts && t >= run[n].now
    ensures var h := run[n].hosts[name];
      h.rps >= 1 && Grants(NewBucket(h.rps, h.created), h.passes) <= h.rps + Quotient(t - h.created, Interval(h.rps))
  {
    hide IsRun, Chained, LastOn, Grants, Quotient, After, Interval, Ordered, Valid;
    RunInv(run, n);
    assert HostOk(run[n], name);
    var h := run[n].hosts[name];
    NewBucketValid(h.rps, h.created);
    TotalBound(NewBucket(h.rps, h.created), h.passes, t);
  }

  /** All families of a host together: between any two acquire passes, the first of them granted. */
  lemma HostWindowBound(run: seq<System>, n: nat, name: string, p: nat, q: nat)
    requires IsRun(run) && n < |run| && name in run[n].hosts && run[n].hosts[name].rps >= 1
    requires p <= q < |run[n].hosts[name].passes|
    requires Granted(NewBucket(run[n].hosts[name].rps, run[n].hosts[name].created), run[n].hosts[name].passes, p)
    ensures var h := run[n].hosts[name]; var b := NewBucket(h.rps, h.created);
      Grants(b, h.passes[..q + 1]) - Grants(b, h.passes[..p])
        <= h.rps + Quotient(h.passes[q] - h.passes[p], Interval(h.rps)) + 1
  {
    hide IsRun, Chained, LastOn, Grants, Quotient, After, Granted, Interval, Ordered, Valid;
    RunInv(run, n);
    assert HostOk(run[n], name);
    var h := run[n].hosts[name];
    NewBucketValid(h.rps, h.created);
    WindowBound(NewBucket(h.rps, h.created), h.passes, p, q);
  }

  /** A host's queue is stuck for good exactly when its first unsettled family is broken: otherwise that
      family is running or its turn has come. */
  lemma QueueAdvances(run: seq<System>, n: nat, f: nat)
    requires IsRun(run) && n < |run| && f < |run[n].families|
    requires forall g :: 0 <= g < f && run[n].families[g].host == run[n].families[f].host ==> run[n].families[g].phase == Settled
    requires run[n].families[f].phase != Settled
    ensures run[n].families[f].phase != Broken <==> run[n].families[f].phase == Running || Turn(run[n], f)
  {
    hide IsRun;
    RunInv(run, n);
    LastOnIs(run[n].families, run[n].families[f].host, f);
  }

  /** Behind a broken family nothing ever starts. */
  lemma BrokenBlocks(run: seq<System>, n: nat, f: nat, g: nat)
    requires IsRun(run) && n < |run| && f < g < |run[n].families|
    requires run[n].families[f].host == run[n].families[g].host && run[n].families[f].phase == Broken
    ensures run[n].families[g].phase == Waiting && !Turn(run[n], g)
    ensures forall m :: n <= m < |run| ==> f < |run[m].families| && run[m].families[f] == run[n].families[f]
  {
    hide IsRun, Chained, LastOn;
    RunInv(run, n);
    BrokenAhead(run[n].families, f, g);
    LastOnIs(run[n].families, run[n].families[g].host, g);
    PrevIs(run[n].families, g);
    forall m | n <= m < |run|
      ensures f < |run[m].families| && run[m].families[f] == run[n].families[f]
    {
      BrokenStays(run, n, m, f);
    }
  }

  lemma BrokenAhead(families: seq<Family>, f: nat, g: nat)
    requires Chained(families) && f < g < |families| && families[f].host == families[g].host && families[f].phase == Broken
    ensures forall h :: f < h < |families| && families[h].host == families[f].host ==> families[h].phase == Waiting
  {
    hide LastOn;
  }

  lemma {:induction false} BrokenStays(run: seq<System>, n: nat, m: nat, f: nat)
    requires IsRun(run) && n <= m < |run| && f < |run[n].families| && run[n].families[f].phase == Broken
    ensures f < |run[m].families| && run[m].families[f] == run[n].families[f]
    decreases m
  {
    hide Step;
    if n < m {
      BrokenStays(run, n, m - 1, f);
      assert m - 1 + 1 == m;
      assert Moves(run[m - 1], run[m - 1 + 1]);
      var time, e :| Step(run[m - 1], time, e, run[m]);
      BrokenStep(run[m - 1], time, e, run[m], f);
    }
  }

  lemma BrokenStep(s: System, time: real, e: Event, t: System, f: nat)
    requires Step(s, time, e, t) && f < |s.families| && s.families[f].phase == Broken
    ensures f < |t.families| && t.families[f] == s.families[f]
  {
    hide Attempt;
  }

  // ----- exactly when a host's queue goes on

  /** The host's first unsettled family, if any, is running or may start. */
  ghost predicate Advances(s: System, host: string) {
    forall f: nat :: FirstUnsettled(s, host, f) ==> s.families[f].phase == Running || Turn(s, f)
  }

  ghost predicate FirstUnsettled(s: System, host: string, f: nat) {
    && f < |s.families| && s.families[f].host == host && s.families[f].phase != Settled
    && forall g :: 0 <= g < f && s.families[g].host == host ==> s.families[g].phase == Settled
  }

  /** Step `i` of the run is a family of the host throwing before it returns a promise. */
  ghost predicate ThrowsAt(run: seq<System>, host: string, i: nat) {
    0 < i < |run| && FamilyThrows(run[i - 1], run[i], host)
  }

  ghost predicate FamilyThrows(s: System, t: System, host: string) {
    exists time, f: nat :: Throws(s, time, f, t, host)
  }

  ghost predicate Throws(s: System, time: real, f: nat, t: System, host: string) {
    f < |s.families| && s.families[f].host == host && Step(s, time, Throw(f), t)
  }

  lemma ThrowStops(run: seq<System>, host: string, i: nat)
    requires IsRun(run) && ThrowsAt(run, host, i)
    ensures !Advances(run[i], host)
  {
    hide IsRun, LastOn, Chained;
    RunInv(run, i - 1);
    var time, f: nat :| Throws(run[i - 1], time, f, run[i], host);
    TurnMeans(run[i - 1].(now := time), f);
    assert FirstUnsettled(run[i], host, f);
  }

  lemma OnlyThrowBreaks(s: System, time: real, e: Event, t: System, f: nat)
    requires Step(s, time, e, t) && f < |t.families| && t.families[f].phase == Broken
    ensures f < |s.families| && s.families[f].host == t.families[f].host && (s.families[f].phase == Broken || e == Throw(f))
  {
  }

  lemma {:induction false} BrokenThrew(run: seq<System>, n: nat, f: nat) returns (i: nat)
    requires IsRun(run) && n < |run| && f < |run[n].families| && run[n].families[f].phase == Broken
    ensures ThrowsAt(run, run[n].families[f].host, i)
  {
    hide Step;
    assert n > 0;
    var m := n - 1;
    assert Moves(run[m], run[m + 1]);
    var time, e :| Step(run[m], time, e, run[n]);
    OnlyThrowBreaks(run[m], time, e, run[n], f);
    if run[m].families[f].phase == Broken {
      i := BrokenThrew(run, m, f);
    } else {
      assert Throws(run[n - 1], time, f, run[n], run[n].families[f].host);
      i := n;
    }
  }

  /** In every run: a host's queue always goes on if and only if none of its families threw before returning a
      promise. */
  lemma QueueAdvancesIff(run: seq<System>, host: string)
    requires IsRun(run)
    ensures (forall m :: 0 <= m < |run| ==> Advances(run[m], host)) <==> (forall i: nat :: !ThrowsAt(run, host, i))
  {
    hide Turn, ThrowsAt, IsRun;
    if i: nat :| ThrowsAt(run, host, i) {
      ThrowStops(run, host, i);
      ThrowInRun(run, host, i);
    } else {
      forall m, f: nat | 0 <= m < |run| && FirstUnsettled(run[m], host, f)
        ensures run[m].families[f].phase == Running || Turn(run[m], f)
      {
        if run[m].families[f].phase == Broken {
          var i := BrokenThrew(run, m, f);
        } else {
          QueueAdvances(run, m, f);
        }
      }
    }
  }

  lemma ThrowInRun(run: seq<System>, host: string, i: nat)
    requires ThrowsAt(run, host, i)
    ensures i < |run|
  {
  }

  /** The shortest run that gets stuck: two calls, and the first function throws. */
  lemma ThrowBlocks() returns (run: seq<System>)
    ensures IsRun(run) && ThrowsAt(run, "h", |run| - 1)
    ensures var s := run[|run| - 1];
      |s.families| == 2 && s.families[0].phase == Broken && s.families[1].phase == Waiting && !Turn(s, 1)
  {
    var s0 := System(map[], [], 0.0);
    var s1 := Apply(s0, Call("h", 1));
    var s2 := Apply(s1, Call("h", 1));
    assert Turn(s2, 0);
    var s3 := Apply(s2, Throw(0));
    run := [s0, s1, s2, s3];
    assert s0.(now := 0.0) == s0 && s1.(now := 0.0) == s1 && s2.(now := 0.0) == s2;
    assert Step(s0, 0.0, Call("h", 1), s1) && Step(s1, 0.0, Call("h", 1), s2) && Step(s2, 0.0, Throw(0), s3);
    assert Moves(s0, s1) && Moves(s1, s2) && Moves(s2, s3);
    assert Throws(s2, 0.0, 0, s3, "h");
  }
}
