/** The lock with an acquire's file operations as separate steps. Breaking a dead holder's lock as the code does is
    then unsafe; exactly which unlinks exclusion can bear is `ExclusiveIff`. */
module LockRace {
  import opened Prelude

  /** Where a process stands in `acquireLock`. */
  datatype Pc = Idle | SawDead | Unlinked | Holding

  /** The lock file names its creator; `dead` are the processes whose lock may be broken. */
  datatype State = State(file: Option<nat>, pcs: map<nat, Pc>, dead: set<nat>)

  function PcOf(s: State, p: nat): Pc {
    if p in s.pcs then s.pcs[p] else Idle
  }

  function At(s: State, p: nat, pc: Pc): State {
    s.(pcs := s.pcs[p := pc])
  }

  /** Exclusive create succeeds. */
  predicate Creates(s: State, p: nat, t: State) {
    p !in s.dead && PcOf(s, p) in {Idle, Unlinked} && s.file.None? && t == At(s, p, Holding).(file := Some(p))
  }

  /** Exclusive create fails, and the recorded holder is found dead. */
  predicate FindsDead(s: State, p: nat, t: State) {
    p !in s.dead && PcOf(s, p) == Idle && s.file.Some? && s.file.value in s.dead && t == At(s, p, SawDead)
  }

  /** The breaker removes whatever file is there now. */
  predicate Unlinks(s: State, p: nat, t: State) {
    p !in s.dead && PcOf(s, p) == SawDead && t == At(s, p, Unlinked).(file := None)
  }

  /** The second create fails. */
  predicate GivesUp(s: State, p: nat, t: State) {
    p !in s.dead && PcOf(s, p) == Unlinked && s.file.Some? && t == At(s, p, Idle)
  }

  predicate Releases(s: State, p: nat, t: State) {
    p !in s.dead && PcOf(s, p) == Holding && t == At(s, p, Idle).(file := None)
  }

  predicate Dies(s: State, p: nat, t: State) {
    t == s.(dead := s.dead + {p})
  }

  /** A step in which no lock is broken. */
  predicate Unbroken(s: State, p: nat, t: State) {
    Creates(s, p, t) || FindsDead(s, p, t) || GivesUp(s, p, t) || Releases(s, p, t) || Dies(s, p, t)
  }

  ghost predicate Exclusive(s: State) {
    forall p: nat, q: nat :: p !in s.dead && q !in s.dead && PcOf(s, p) == Holding && PcOf(s, q) == Holding ==> p == q
  }

  /** The lock file is the live holder's. */
  ghost predicate Inv(s: State) {
    forall p: nat :: p !in s.dead && PcOf(s, p) == Holding ==> s.file == Some(p)
  }

  /** Something decides which process may unlink in which state. The code lets every process that saw a dead
      holder do so. */
  type Guard = (State, nat) -> bool

  predicate Guarded(guard: Guard, s: State, p: nat, t: State) {
    Unbroken(s, p, t) || (Unlinks(s, p, t) && guard(s, p))
  }

  ghost predicate MovesGuarded(guard: Guard, s: State, t: State) {
    exists p: nat :: Guarded(guard, s, p, t)
  }

  /** Everybody starts idle; a lock file left behind by an earlier run may be there. */
  ghost predicate GuardedRun(guard: Guard, run: seq<State>) {
    && |run| > 0 && (forall p: nat :: PcOf(run[0], p) == Idle)
    && forall i :: 0 < i < |run| ==> MovesGuarded(guard, run[i - 1], run[i])
  }

  function Last(run: seq<State>): State
    requires run != []
  {
    run[|run| - 1]
  }

  /** The lock file is that of a live process that holds the lock. */
  predicate LiveHolder(s: State) {
    s.file.Some? && s.file.value !in s.dead && PcOf(s, s.file.value) == Holding
  }

  /** `p` is about to unlink, and may. */
  predicate AboutToUnlink(guard: Guard, s: State, p: nat) {
    p !in s.dead && PcOf(s, p) == SawDead && guard(s, p)
  }

  /** In every run, only files that are no live holder's are unlinked. */
  ghost predicate SparesHolders(guard: Guard) {
    forall run, p: nat :: GuardedRun(guard, run) && AboutToUnlink(guard, Last(run), p) ==> !LiveHolder(Last(run))
  }

  ghost predicate KeepsExclusion(guard: Guard) {
    forall run :: GuardedRun(guard, run) ==> Exclusive(Last(run))
  }

  lemma UnbrokenInv(s: State, p: nat, t: State)
    requires Inv(s) && Unbroken(s, p, t)
    ensures Inv(t)
  {
    forall q: nat | q !in t.dead && PcOf(t, q) == Holding
      ensures t.file == Some(q)
    {
      if q != p {
        assert PcOf(s, q) == Holding;
      }
    }
  }

  lemma NobodyHolds(s: State)
    requires Inv(s) && !LiveHolder(s)
    ensures forall q: nat :: q !in s.dead ==> PcOf(s, q) != Holding
  {
  }

  lemma UnlinkInv(s: State, p: nat, t: State)
    requires Inv(s) && Unlinks(s, p, t) && !LiveHolder(s)
    ensures Inv(t)
  {
    NobodyHolds(s);
    forall q: nat
      ensures PcOf(t, q) == Holding ==> PcOf(s, q) == Holding
    {
    }
  }

  lemma Earlier(guard: Guard, run: seq<State>)
    requires GuardedRun(guard, run) && |run| > 1
    ensures GuardedRun(guard, run[..|run| - 1]) && MovesGuarded(guard, Last(run[..|run| - 1]), Last(run))
  {
    var n := |run| - 1;
    assert MovesGuarded(guard, run[n - 1], run[n]);
  }

  lemma {:induction false} SparedInv(guard: Guard, run: seq<State>)
    requires SparesHolders(guard) && GuardedRun(guard, run)
    ensures Inv(Last(run))
  {
    hide Inv, LiveHolder, Unbroken;
    if |run| == 1 {
      IdleInv(run);
    } else {
      var front := run[..|run| - 1];
      Earlier(guard, run);
      SparedInv(guard, front);
      var p: nat :| Guarded(guard, Last(front), p, Last(run));
      if Unbroken(Last(front), p, Last(run)) {
        UnbrokenInv(Last(front), p, Last(run));
      } else {
        assert AboutToUnlink(guard, Last(front), p);
        UnlinkInv(Last(front), p, Last(run));
      }
    }
  }

  lemma IdleInv(run: seq<State>)
    requires run != [] && forall p: nat :: PcOf(run[0], p) == Idle
    ensures Inv(run[0])
  {
  }

  lemma {:induction false} Later(guard: Guard, run: seq<State>, t: State)
    requires GuardedRun(guard, run) && MovesGuarded(guard, Last(run), t)
    ensures GuardedRun(guard, run + [t]) && Last(run + [t]) == t
  {
    var now := run + [t];
    forall i | 0 < i < |now|
      ensures MovesGuarded(guard, now[i - 1], now[i])
    {
      if i < |run| {
        assert MovesGuarded(guard, run[i - 1], run[i]);
      }
    }
  }

  /** One unlink of a live holder's file, one create by the breaker: two live holders. */
  lemma UnlinkThenCreate(guard: Guard, run: seq<State>, p: nat) returns (worse: seq<State>)
    requires GuardedRun(guard, run) && AboutToUnlink(guard, Last(run), p) && LiveHolder(Last(run))
    ensures GuardedRun(guard, worse) && !Exclusive(Last(worse))
  {
    var s := Last(run);
    var t := At(s, p, Unlinked).(file := None);
    var u := At(t, p, Holding).(file := Some(p));
    assert Unlinks(s, p, t) && Creates(t, p, u);
    assert Guarded(guard, s, p, t) && Guarded(guard, t, p, u);
    Later(guard, run, t);
    Later(guard, run + [t], u);
    worse := run + [t] + [u];
    assert PcOf(u, p) == Holding && PcOf(u, s.file.value) == Holding;
  }

  /** All runs under a guard are exclusive if and only if the guard never lets a live holder's file be unlinked. */
  lemma ExclusiveIff(guard: Guard)
    ensures KeepsExclusion(guard) <==> SparesHolders(guard)
  {
    hide LiveHolder, AboutToUnlink, Exclusive, MovesGuarded;
    if SparesHolders(guard) {
      forall run | GuardedRun(guard, run)
        ensures Exclusive(Last(run))
      {
        SparedInv(guard, run);
        InvExclusive(Last(run));
      }
    } else {
      var run, p: nat :| GuardedRun(guard, run) && AboutToUnlink(guard, Last(run), p) && LiveHolder(Last(run));
      var worse := UnlinkThenCreate(guard, run, p);
    }
  }

  lemma InvExclusive(s: State)
    requires Inv(s)
    ensures Exclusive(s)
  {
  }

  // ----- guards that do and do not

  /** Only the processes in `breaks` ever break locks. */
  function BreakersGuard(breaks: nat -> bool): Guard {
    (s: State, p: nat) => breaks(p)
  }

  ghost predicate AtMostOne(breaks: nat -> bool) {
    forall p: nat, q: nat :: breaks(p) && breaks(q) ==> p == q
  }

  /** Two breakers `p` and `q` that both saw the dead holder `d`: the second removes the first one's new file. */
  lemma TwoBreakersRace(breaks: nat -> bool, p: nat, q: nat, d: nat) returns (run: seq<State>)
    requires breaks(p) && breaks(q) && p != q && d != p && d != q
    ensures GuardedRun(BreakersGuard(breaks), run) && run[0] == State(Some(d), map[], {d})
    ensures Exclusive(run[0]) && !Exclusive(Last(run))
  {
    var guard := BreakersGuard(breaks);
    var s0 := State(Some(d), map[], {d});
    var s1 := At(s0, p, SawDead);
    var s2 := At(s1, q, SawDead);
    var s3 := At(s2, p, Unlinked).(file := None);
    var s4 := At(s3, p, Holding).(file := Some(p));
    var s5 := At(s4, q, Unlinked).(file := None);
    var s6 := At(s5, q, Holding).(file := Some(q));
    run := [s0, s1, s2, s3, s4, s5, s6];
    assert FindsDead(s0, p, s1) && FindsDead(s1, q, s2) && Unlinks(s2, p, s3);
    assert Creates(s3, p, s4) && Unlinks(s4, q, s5) && Creates(s5, q, s6);
    assert Guarded(guard, s0, p, s1) && Guarded(guard, s1, q, s2) && Guarded(guard, s2, p, s3);
    assert Guarded(guard, s3, p, s4) && Guarded(guard, s4, q, s5) && Guarded(guard, s5, q, s6);
    assert PcOf(s6, p) == Holding && PcOf(s6, q) == Holding;
  }

  /** While the only breaker is at work, the dead holder's file stays where it is. */
  ghost predicate BreakerInv(breaks: nat -> bool, s: State) {
    && Inv(s)
    && forall q: nat :: breaks(q) && PcOf(s, q) == SawDead && q !in s.dead ==> s.file.Some? && s.file.value in s.dead
  }

  lemma BreakerStep(breaks: nat -> bool, s: State, p: nat, t: State)
    requires AtMostOne(breaks) && BreakerInv(breaks, s) && Guarded(BreakersGuard(breaks), s, p, t)
    ensures BreakerInv(breaks, t)
  {
    if Unbroken(s, p, t) {
      UnbrokenInv(s, p, t);
    } else {
      UnlinkInv(s, p, t);
    }
  }

  lemma {:induction false} OneBreakerRun(breaks: nat -> bool, run: seq<State>)
    requires AtMostOne(breaks) && GuardedRun(BreakersGuard(breaks), run)
    ensures BreakerInv(breaks, Last(run))
  {
    hide BreakerInv, Guarded, AtMostOne;
    if |run| == 1 {
      IdleBreaker(breaks, BreakersGuard(breaks), run);
    } else {
      var front := run[..|run| - 1];
      Earlier(BreakersGuard(breaks), run);
      OneBreakerRun(breaks, front);
      var p: nat :| Guarded(BreakersGuard(breaks), Last(front), p, Last(run));
      BreakerStep(breaks, Last(front), p, Last(run));
    }
  }

  lemma IdleBreaker(breaks: nat -> bool, guard: Guard, run: seq<State>)
    requires GuardedRun(guard, run)
    ensures BreakerInv(breaks, run[0])
  {
    IdleInv(run);
  }

  /** Breaking is safe if and only if at most one process ever does it. */
  lemma BreakersIff(breaks: nat -> bool)
    ensures KeepsExclusion(BreakersGuard(breaks)) <==> AtMostOne(breaks)
  {
    hide MovesGuarded, Exclusive;
    if AtMostOne(breaks) {
      forall run | GuardedRun(BreakersGuard(breaks), run)
        ensures Exclusive(Last(run))
      {
        OneBreakerRun(breaks, run);
        InvExclusive(Last(run));
      }
    } else {
      var p: nat, q: nat :| breaks(p) && breaks(q) && p != q;
      var run := TwoBreakersRace(breaks, p, q, p + q + 1);
    }
  }

  /** The code lets everybody break. */
  lemma CodeGuardFails()
    ensures !KeepsExclusion(BreakersGuard((p: nat) => true))
  {
    var breaks := (p: nat) => true;
    assert breaks(0) && breaks(1);
    BreakersIff(breaks);
  }

  /** Nobody does: no lock is ever broken. */
  lemma ExclusiveWithoutBreaking()
    ensures KeepsExclusion(BreakersGuard((p: nat) => false))
  {
    BreakersIff((p: nat) => false);
  }

  lemma OneBreakerKeeps(b: nat)
    ensures KeepsExclusion(BreakersGuard((p: nat) => p == b))
  {
    BreakersIff((p: nat) => p == b);
  }

  /** Looking again in the same step as the unlink. */
  function RecheckGuard(): Guard {
    (s: State, p: nat) => s.file.None? || s.file.value in s.dead
  }

  lemma RecheckingKeeps()
    ensures KeepsExclusion(RecheckGuard())
  {
    hide MovesGuarded;
    assert SparesHolders(RecheckGuard());
    ExclusiveIff(RecheckGuard());
  }

  /** And it still breaks what may be broken: where the file's holder is dead, a live process that stands idle finds that
      out, unlinks and creates, each step allowed, and then holds the lock. */
  lemma RecheckingTakes(s: State, p: nat) returns (found: State, gone: State, held: State)
    requires p !in s.dead && PcOf(s, p) == Idle && s.file.Some? && s.file.value in s.dead
    ensures MovesGuarded(RecheckGuard(), s, found) && MovesGuarded(RecheckGuard(), found, gone)
    ensures MovesGuarded(RecheckGuard(), gone, held) && PcOf(held, p) == Holding && held.file == Some(p)
  {
    found := At(s, p, SawDead);
    gone := At(found, p, Unlinked).(file := None);
    held := At(gone, p, Holding).(file := Some(p));
    assert Guarded(RecheckGuard(), s, p, found);
    assert Guarded(RecheckGuard(), found, p, gone);
    assert Guarded(RecheckGuard(), gone, p, held);
  }
}
