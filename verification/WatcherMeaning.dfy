/** What the watcher's timers, flushes and known files amount to over its runs. */
module WatcherMeaning {
  import opened Prelude
  import opened Watcher

  // ----- debouncing

  /** `run` is nothing but deliveries of file events, those of `paths`, one after the other. */
  ghost predicate IsBurst(resolve: Resolver, run: seq<World>, paths: seq<Path>) {
    && |run| == |paths| + 1
    && forall i :: 0 <= i < |paths| ==> Enabled(run[i], Notify(paths[i])) && run[i + 1] == Apply(resolve, run[i], Notify(paths[i]))
  }

  function AllOf(paths: seq<Path>): set<Path> {
    set p | p in paths
  }

  /** Debouncing: from a state with at most its own timer armed, any burst of events leaves exactly one timer armed, a
      new one, and exactly the paths of the burst pending in addition. */
  lemma {:induction false} BurstArmsOne(resolve: Resolver, run: seq<World>, paths: seq<Path>)
    requires IsBurst(resolve, run, paths) && paths != []
    requires run[0].w.timers <= (if run[0].w.debounce == None then {} else {run[0].w.debounce.value})
    ensures var v, v' := run[0], run[|paths|];
      && v'.w.timers == {v.w.nextTimer + |paths| - 1} && v'.w.debounce == Some(v.w.nextTimer + |paths| - 1)
      && v'.w.nextTimer == v.w.nextTimer + |paths|
      && v'.w.pending == v.w.pending + AllOf(paths)
      && v'.w.cache == v.w.cache && v'.w.phase == v.w.phase && v'.disk == v.disk
  {
    var n := |paths| - 1;
    if n == 0 {
      assert run[0 + 1] == Apply(resolve, run[0], Notify(paths[0]));
      assert AllOf(paths) == {paths[0]};
    } else {
      BurstArmsOne(resolve, run[..n + 1], paths[..n]);
      assert run[n + 1] == Apply(resolve, run[n], Notify(paths[n]));
      assert AllOf(paths) == AllOf(paths[..n]) + {paths[n]};
    }
  }

  /** The one timer, once fired in an idle watcher, starts a drain of everything pending and leaves no timer. */
  lemma OneFireTakesAll(resolve: Resolver, v: World, t: nat, batch: seq<Path>)
    requires v.w.phase.Idle? && v.w.timers == {t} && v.w.debounce == Some(t) && v.w.pending != {}
    requires Enabled(v, Fire(t, batch))
    ensures var v' := Apply(resolve, v, Fire(t, batch));
      && v'.w.pending == {} && v'.w.timers == {} && v'.w.debounce == None
      && v'.w.phase == Working(batch, None, false) && AllOf(batch) == v.w.pending && |batch| == |v.w.pending|
      && v'.w.cache == v.w.cache
  {
    var p :| p in v.w.pending;
    assert p in batch;
  }

  /** A drain arms a timer when it ends if and only if something came in meanwhile. */
  lemma DrainArmsIff(resolve: Resolver, v: World, e: Event)
    requires Enabled(v, e) && (e.Close? || e.Flushed?) && Apply(resolve, v, e).w.phase.Idle?
    ensures var w, w' := v.w, Apply(resolve, v, e).w;
      && (w.pending != {} ==> w'.timers == w.timers + {w.nextTimer} && w'.debounce == Some(w.nextTimer))
      && (w.pending == {} ==> w'.timers == w.timers && w'.debounce == w.debounce)
      && w'.pending == w.pending
  {
  }

  // ----- flushing

  ghost predicate DrainGoesOn(run: seq<World>, a: nat, n: nat) {
    a <= n < |run| && forall i :: a <= i <= n ==> run[i].w.phase.Working?
  }

  /** A step of the cache in the drain from `a` to `n`. */
  ghost predicate CacheMoved(run: seq<World>, a: nat, n: nat) {
    exists i :: a < i <= n && i < |run| && run[i].w.cache != run[i - 1].w.cache
  }

  lemma UpdateFlags(resolve: Resolver, v: World, e: Event)
    requires Enabled(v, e) && v.w.phase.Working? && Apply(resolve, v, e).w.phase.Working?
    ensures var w, w' := v.w, Apply(resolve, v, e).w; w'.phase.changed <==> w.phase.changed || w'.cache != w.cache
  {
    hide SeenNow, Importers;
    if e.Update? {
      var p := v.w.phase.todo[0];
      var cache := Apply(resolve, v, e).w.cache;
      assert p in cache && p in v.w.cache && cache[p].sha256 != v.w.cache[p].sha256 ==> cache != v.w.cache;
    }
  }

  /** A drain knows exactly whether it has changed the cache. */
  lemma {:induction false} ChangedMeans(resolve: Resolver, run: seq<World>, a: nat, n: nat)
    requires IsRun(resolve, run) && DrainGoesOn(run, a, n) && !run[a].w.phase.changed
    ensures run[n].w.phase.changed <==> CacheMoved(run, a, n)
    decreases n
  {
    hide IsRun, Apply, Enabled;
    if a < n {
      ChangedMeans(resolve, run, a, n - 1);
      var e := StepAt(resolve, run, n);
      UpdateFlags(resolve, run[n - 1], e);
    }
  }

  lemma StepAt(resolve: Resolver, run: seq<World>, n: nat) returns (e: Event)
    requires IsRun(resolve, run) && 0 < n < |run|
    ensures Enabled(run[n - 1], e) && run[n] == Apply(resolve, run[n - 1], e)
  {
    hide Starts, Enabled, Apply;
    assert Moves(resolve, run[n - 1], run[n]);
    e :| Enabled(run[n - 1], e) && run[n] == Apply(resolve, run[n - 1], e);
  }

  /** So a drain writes the cache out if and only if it changed it, and with every reverse index brought up to date;
      otherwise it ends with the cache as it was when it began. */
  lemma FlushesIffChanged(resolve: Resolver, run: seq<World>, a: nat, n: nat)
    requires IsRun(resolve, run) && DrainGoesOn(run, a, n) && !run[a].w.phase.changed && Enabled(run[n], Close)
    ensures var w' := Apply(resolve, run[n], Close).w;
      && (w'.phase.Flushing? <==> CacheMoved(run, a, n))
      && (!w'.phase.Flushing? ==> w'.phase.Idle? && w'.cache == run[a].w.cache)
      && (w'.phase.Flushing? ==> IndexExact(w'.cache) && w'.cache.Keys == run[n].w.cache.Keys)
  {
    hide IsRun, CacheMoved, Importers;
    ChangedMeans(resolve, run, a, n);
    ReindexedIsExact(run[n].w.cache);
    if !run[n].w.phase.changed {
      CacheStays(run, a, n);
    }
  }

  lemma {:induction false} CacheStays(run: seq<World>, a: nat, n: nat)
    requires a <= n < |run| && !CacheMoved(run, a, n)
    ensures run[n].w.cache == run[a].w.cache
    decreases n
  {
    if a < n {
      CacheStays(run, a, n - 1);
    }
  }

  // ----- known files

  /** The step from `run[i]` takes up a path that was there and could not be read. */
  ghost predicate SkipsUnread(run: seq<World>, i: nat, p: Path) {
    && i + 1 < |run| && run[i].w.phase.Working? && run[i].w.phase.todo != [] && run[i].w.phase.todo[0] == p
    && run[i].w.phase.seen == Some(Unreadable)
    && run[i + 1].w.phase == Working(run[i].w.phase.todo[1..], None, run[i].w.phase.changed)
  }

  /** Skipped as unreadable at some time before `n`, and not in the cache from then on. */
  ghost predicate UnreadSince(run: seq<World>, n: nat, p: Path) {
    exists i: nat :: i < n && SkipsUnread(run, i, p) && forall j :: i <= j <= n && j < |run| ==> p !in run[j].w.cache
  }

  /** What a step does to the known files and to the keys of the cache, for one path. */
  lemma KnownMoves(resolve: Resolver, v: World, e: Event, p: Path)
    requires Enabled(v, e)
    ensures var w, w' := v.w, Apply(resolve, v, e).w;
      var unread := e.Update? && w.phase.todo[0] == p && w.phase.seen.value.Unreadable?;
      && (unread ==> p in w'.known && (p in w'.cache <==> p in w.cache))
      && (!unread ==>
            || ((p in w'.known <==> p in w.known) && (p in w'.cache <==> p in w.cache))
            || (p in w'.known && p in w'.cache)
            || (p !in w'.known && p !in w'.cache && p in w.cache))
  {
    hide Importers, SeenNow;
  }

  lemma SkipIsUpdate(resolve: Resolver, run: seq<World>, n: nat, e: Event, p: Path)
    requires 0 < n < |run| && Enabled(run[n - 1], e) && run[n] == Apply(resolve, run[n - 1], e)
    ensures SkipsUnread(run, n - 1, p) <==>
      e.Update? && run[n - 1].w.phase.todo[0] == p && run[n - 1].w.phase.seen.value.Unreadable?
  {
    hide SeenNow, Importers;
    var phase := run[n - 1].w.phase;
    if phase.Working? && phase.todo != [] {
      assert |phase.todo[1..]| == |phase.todo| - 1;
    }
  }

  lemma UnreadStep(run: seq<World>, n: nat, p: Path)
    requires 0 < n < |run|
    ensures UnreadSince(run, n, p) <==>
      p !in run[n].w.cache && (UnreadSince(run, n - 1, p) || (SkipsUnread(run, n - 1, p) && p !in run[n - 1].w.cache))
  {
    hide SkipsUnread;
    var m := n - 1;
    if UnreadSince(run, n, p) {
      var i: nat :| i < n && SkipsUnread(run, i, p) && forall j :: i <= j <= n && j < |run| ==> p !in run[j].w.cache;
      assert i < m || i == m;
    }
    if p !in run[n].w.cache && UnreadSince(run, m, p) {
      var i: nat :| i < m && SkipsUnread(run, i, p) && forall j :: i <= j <= m && j < |run| ==> p !in run[j].w.cache;
      assert i < n && forall j :: i <= j <= n && j < |run| ==> p !in run[j].w.cache;
    }
    if p !in run[n].w.cache && SkipsUnread(run, m, p) && p !in run[m].w.cache {
      assert m < n && forall j :: m <= j <= n && j < |run| ==> p !in run[j].w.cache;
    }
  }

  /** Known files, exactly: those of the cache, and those that were skipped as unreadable and have not been in the cache
      since, whether or not they are still there. */
  lemma {:induction false} KnownExactly(resolve: Resolver, run: seq<World>, n: nat, p: Path)
    requires IsRun(resolve, run) && n < |run| && run[0].w.known == run[0].w.cache.Keys
    ensures p in run[n].w.known <==> p in run[n].w.cache || UnreadSince(run, n, p)
  {
    hide IsRun, Apply, Enabled, SkipsUnread, UnreadSince;
    if n == 0 {
      NoneYet(run, p);
    } else {
      KnownExactly(resolve, run, n - 1, p);
      var e := StepAt(resolve, run, n);
      KnownMoves(resolve, run[n - 1], e, p);
      SkipIsUpdate(resolve, run, n, e, p);
      UnreadStep(run, n, p);
      if UnreadSince(run, n - 1, p) {
        UnreadMeansOut(run, n - 1, p);
      }
    }
  }

  lemma NoneYet(run: seq<World>, p: Path)
    ensures !UnreadSince(run, 0, p)
  {
  }

  lemma UnreadMeansOut(run: seq<World>, n: nat, p: Path)
    requires n < |run| && UnreadSince(run, n, p)
    ensures p !in run[n].w.cache
  {
  }
}
