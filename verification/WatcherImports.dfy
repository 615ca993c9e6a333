/** When the imports the watcher has cached for a file are those a rebuild would find. They are resolved once, when
    the file's content is cached, against the files known then. */
module WatcherImports {
  import opened Prelude
  import opened Watcher

  /** The step from `v` to `v'` caches new content of `p`. */
  predicate Writes(v: World, v': World, p: Path) {
    p in v'.w.cache && (p !in v.w.cache || v.w.cache[p].sha256 != v'.w.cache[p].sha256)
  }

  predicate Keeps(v: World, v': World, p: Path) {
    && p in v.w.cache && p in v'.w.cache
    && v'.w.cache[p].sha256 == v.w.cache[p].sha256 && v'.w.cache[p].imports == v.w.cache[p].imports
  }

  /** A step resolves the imports of what it caches against the files known to it, and leaves all others alone. */
  lemma StepImports(resolve: Resolver, v: World, e: Event, p: Path)
    requires Enabled(v, e) && p in Apply(resolve, v, e).w.cache
    ensures var v' := Apply(resolve, v, e);
      if Writes(v, v', p) then v'.w.cache[p].imports == resolve(p, v'.w.cache[p].sha256, v'.w.known) else Keeps(v, v', p)
  {
    hide Importers, SeenNow;
  }

  predicate CachedAt(run: seq<World>, i: nat, p: Path) {
    i < |run| && p in run[i].w.cache
  }

  predicate WrittenAt(run: seq<World>, i: nat, p: Path) {
    0 < i < |run| && Writes(run[i - 1], run[i], p)
  }

  /** The entry of `p` in `run[n]` goes back to `run[m]`: the step that cached its content, or the start. */
  ghost predicate Origin(run: seq<World>, m: nat, n: nat, p: Path) {
    && m <= n < |run| && (m == 0 || WrittenAt(run, m, p))
    && (forall i :: m <= i <= n ==> CachedAt(run, i, p))
    && (forall i :: m < i <= n ==> !WrittenAt(run, i, p))
  }

  lemma RunStep(resolve: Resolver, run: seq<World>, i: nat, p: Path)
    requires IsRun(resolve, run) && 0 < i < |run| && CachedAt(run, i, p)
    ensures if WrittenAt(run, i, p) then run[i].w.cache[p].imports == resolve(p, run[i].w.cache[p].sha256, run[i].w.known)
      else Keeps(run[i - 1], run[i], p)
  {
    hide Writes, Keeps, Apply, Enabled, Starts;
    assert Moves(resolve, run[i - 1], run[i]);
    var e :| Enabled(run[i - 1], e) && run[i] == Apply(resolve, run[i - 1], e);
    StepImports(resolve, run[i - 1], e, p);
  }

  /** Every cached entry has an origin. */
  lemma {:induction false} HasOrigin(resolve: Resolver, run: seq<World>, n: nat, p: Path) returns (m: nat)
    requires IsRun(resolve, run) && CachedAt(run, n, p)
    ensures Origin(run, m, n, p)
  {
    hide IsRun, Writes;
    if n == 0 || WrittenAt(run, n, p) {
      m := n;
    } else {
      RunStep(resolve, run, n, p);
      m := HasOrigin(resolve, run, n - 1, p);
    }
  }

  lemma {:induction false} SinceOrigin(resolve: Resolver, run: seq<World>, m: nat, n: nat, p: Path)
    requires IsRun(resolve, run) && Origin(run, m, n, p)
    ensures Keeps(run[m], run[n], p)
    decreases n
  {
    hide IsRun, Writes;
    assert CachedAt(run, n, p);
    if m < n {
      RunStep(resolve, run, n, p);
      SinceOrigin(resolve, run, m, n - 1, p);
    }
  }

  /** The imports cached for `p` are those of its content against the files known. */
  predicate Resolved(resolve: Resolver, v: World, p: Path) {
    p in v.w.cache && v.w.cache[p].imports == resolve(p, v.w.cache[p].sha256, v.w.known)
  }

  /** In every run: the imports cached for a file are what its content resolves to against the files known now if and
      only if that is the same as against the files known when the content was cached, be it in the run or before it. */
  lemma ImportsCurrentIff(resolve: Resolver, run: seq<World>, m: nat, n: nat, p: Path)
    requires IsRun(resolve, run) && Origin(run, m, n, p) && (m == 0 ==> Resolved(resolve, run[0], p))
    ensures p in run[n].w.cache
    ensures Resolved(resolve, run[n], p) <==>
      var hash := run[n].w.cache[p].sha256; resolve(p, hash, run[m].w.known) == resolve(p, hash, run[n].w.known)
  {
    hide IsRun, Writes;
    SinceOrigin(resolve, run, m, n, p);
    if m > 0 {
      RunStep(resolve, run, m, p);
    }
  }

  // ----- against a rebuild

  /** Every look could read its file, and the watcher started out knowing exactly the files of its cache. */
  ghost predicate AllReadable(run: seq<World>) {
    && (forall i :: 0 <= i < |run| ==> run[i].excused == {})
    && |run| > 0 && run[0].w.known == run[0].w.cache.Keys
  }

  /** No file was found unreadable. */
  predicate NoneUnreadable(w: State) {
    w.phase.Working? && w.phase.seen.Some? ==> !w.phase.seen.value.Unreadable?
  }

  lemma KnownStep(resolve: Resolver, v: World, e: Event)
    requires Enabled(v, e) && v.w.known == v.w.cache.Keys && NoneUnreadable(v.w)
    requires Apply(resolve, v, e).excused == {}
    ensures Apply(resolve, v, e).w.known == Apply(resolve, v, e).w.cache.Keys && NoneUnreadable(Apply(resolve, v, e).w)
  {
    hide Importers;
  }

  lemma {:induction false} KnownIsCached(resolve: Resolver, run: seq<World>, n: nat)
    requires IsRun(resolve, run) && AllReadable(run) && n < |run|
    ensures run[n].w.known == run[n].w.cache.Keys && NoneUnreadable(run[n].w)
  {
    hide Apply, Enabled;
    if n > 0 {
      KnownIsCached(resolve, run, n - 1);
      assert Moves(resolve, run[n - 1], run[n]);
      var e :| Enabled(run[n - 1], e) && run[n] == Apply(resolve, run[n - 1], e);
      KnownStep(resolve, run[n - 1], e);
    }
  }

  predicate Quiet(v: World) {
    v.w.phase.Idle? && v.w.pending == {} && v.undelivered == {}
  }

  /** When the watcher is quiet and every file could be read, the imports cached for a file are those a rebuild finds
      on the disk if and only if its content resolves alike against the files that were cached when it was. */
  lemma QuietImportsIff(resolve: Resolver, run: seq<World>, m: nat, n: nat, p: Path)
    requires IsRun(resolve, run) && AllReadable(run) && n < |run| && Quiet(run[n])
    requires Origin(run, m, n, p) && (m == 0 ==> Resolved(resolve, run[0], p))
    ensures p in run[n].disk && p in run[n].w.cache && run[n].w.cache[p].sha256 == run[n].disk[p]
    ensures var disk := run[n].disk;
      run[n].w.cache[p].imports == resolve(p, disk[p], disk.Keys) <==>
      resolve(p, disk[p], run[m].w.cache.Keys) == resolve(p, disk[p], disk.Keys)
  {
    assert m <= n;
    hide IsRun, Origin;
    ImportsCurrentIff(resolve, run, m, n, p);
    MatchesAll(resolve, run, n);
    KnownIsCached(resolve, run, m);
    KnownIsCached(resolve, run, n);
    assert Matches(run[n].w.cache, run[n].disk, p);
  }

  lemma MatchesAll(resolve: Resolver, run: seq<World>, n: nat)
    requires IsRun(resolve, run) && AllReadable(run) && n < |run| && Quiet(run[n])
    ensures forall p: Path :: Matches(run[n].w.cache, run[n].disk, p)
    ensures run[n].w.cache.Keys == run[n].disk.Keys
  {
    hide IsRun;
    forall p: Path
      ensures Matches(run[n].w.cache, run[n].disk, p)
    {
      QuietMeansFresh(resolve, run, n, p);
    }
    forall p: Path
      ensures p in run[n].w.cache <==> p in run[n].disk
    {
      assert Matches(run[n].w.cache, run[n].disk, p);
    }
  }

  /** Resolution looks at no other files than `candidates`. */
  ghost predicate LooksOnlyAt(resolve: Resolver, p: Path, hash: string, candidates: set<Path>) {
    forall a: set<Path>, b: set<Path> :: a * candidates == b * candidates ==> resolve(p, hash, a) == resolve(p, hash, b)
  }

  /** So they are those of a rebuild whenever no candidate of the file has come or gone since. */
  lemma CandidatesKept(resolve: Resolver, run: seq<World>, m: nat, n: nat, p: Path, candidates: set<Path>)
    requires IsRun(resolve, run) && AllReadable(run) && n < |run| && Quiet(run[n])
    requires Origin(run, m, n, p) && (m == 0 ==> Resolved(resolve, run[0], p))
    requires p in run[n].disk && LooksOnlyAt(resolve, p, run[n].disk[p], candidates)
    requires run[m].w.cache.Keys * candidates == run[n].disk.Keys * candidates
    ensures p in run[n].w.cache && run[n].w.cache[p].imports == resolve(p, run[n].disk[p], run[n].disk.Keys)
  {
    var before, now := run[m].w.cache.Keys, run[n].disk.Keys;
    assert before * candidates == now * candidates;
    hide IsRun, Origin, AllReadable, Quiet;
    QuietImportsIff(resolve, run, m, n, p);
  }

  // ----- a quiet watcher with stale imports

  /** `a` imports `b` as soon as `b` is known. */
  function AImportsB(): Resolver {
    (p: Path, hash: string, known: set<Path>) => if p == "a" && "b" in known then {"b"} else {}
  }

  lemma Extended(resolve: Resolver, run: seq<World>, e: Event, v: World)
    requires IsRun(resolve, run) && AllReadable(run) && v.excused == {}
    requires Enabled(run[|run| - 1], e) && v == Apply(resolve, run[|run| - 1], e)
    ensures IsRun(resolve, run + [v]) && AllReadable(run + [v])
  {
    hide Enabled, Apply, Starts;
    var now := run + [v];
    assert Moves(resolve, run[|run| - 1], v);
    forall i | 0 < i < |now|
      ensures Moves(resolve, now[i - 1], now[i])
    {
      if i < |run| {
        assert Moves(resolve, run[i - 1], run[i]);
      }
    }
  }

  const A := Entry("h", {}, {})
  const B := Entry("g", {}, {})

  function Before(): World {
    World(State(map["a" := A], {"a"}, {}, {}, 0, None, Idle), map["a" := "h"], {}, {})
  }

  function Created(): World {
    Before().(disk := map["a" := "h", "b" := "g"], undelivered := {"b"})
  }

  function Told(): World {
    Created().(undelivered := {}, w := State(map["a" := A], {"a"}, {"b"}, {0}, 1, Some(0), Idle))
  }

  function Fired(): World {
    Told().(w := State(map["a" := A], {"a"}, {}, {}, 1, None, Working(["b"], None, false)))
  }

  function Looked(): World {
    Told().(w := State(map["a" := A], {"a"}, {}, {}, 1, None, Working(["b"], Some(Content("g")), false)))
  }

  function Updated(): World {
    Told().(w := State(map["a" := A, "b" := B], {"a", "b"}, {}, {}, 1, None, Working([], None, true)))
  }

  function Indexed(): World {
    Told().(w := State(map["a" := A, "b" := B], {"a", "b"}, {}, {}, 1, None, Flushing))
  }

  function After(): World {
    Told().(w := State(map["a" := A, "b" := B], {"a", "b"}, {}, {}, 1, None, Idle))
  }

  lemma BIsTold()
    ensures Enabled(Before(), Edit("b", Some("g"))) && Created() == Apply(AImportsB(), Before(), Edit("b", Some("g")))
    ensures Enabled(Created(), Notify("b")) && Told() == Apply(AImportsB(), Created(), Notify("b"))
    ensures Enabled(Told(), Fire(0, ["b"])) && Fired() == Apply(AImportsB(), Told(), Fire(0, ["b"]))
  {
  }

  lemma BIsCached()
    ensures Enabled(Fired(), LookAt(true)) && Looked() == Apply(AImportsB(), Fired(), LookAt(true))
    ensures Enabled(Looked(), Update) && Updated() == Apply(AImportsB(), Looked(), Update)
  {
    assert Looked().w.known + {"b"} == {"a", "b"};
    assert Looked().w.cache["b" := B] == map["a" := A, "b" := B];
    assert ["b"][1..] == [];
    assert AImportsB()("b", "g", {"a", "b"}) == {};
  }

  lemma BIsIndexed()
    ensures Enabled(Updated(), Close) && Indexed() == Apply(AImportsB(), Updated(), Close)
    ensures Enabled(Indexed(), Flushed) && After() == Apply(AImportsB(), Indexed(), Flushed)
  {
    var cache := Updated().w.cache;
    assert Importers(cache, "a") == {} && Importers(cache, "b") == {};
    assert Reindexed(cache) == cache;
  }

  /** One more step behind a run that ends in `u`. */
  lemma Extend(run: seq<World>, u: World, e: Event, v: World) returns (longer: seq<World>)
    requires IsRun(AImportsB(), run) && AllReadable(run) && run[|run| - 1] == u && v.excused == {}
    requires Enabled(u, e) && v == Apply(AImportsB(), u, e)
    ensures IsRun(AImportsB(), longer) && AllReadable(longer) && longer[0] == run[0] && longer[|longer| - 1] == v
  {
    assert |run| > 0;
    hide IsRun, AllReadable, Enabled, Apply;
    Extended(AImportsB(), run, e, v);
    longer := run + [v];
  }

  lemma RunToFired() returns (run: seq<World>)
    ensures IsRun(AImportsB(), run) && AllReadable(run) && run[0] == Before() && run[|run| - 1] == Fired()
  {
    StartsRun();
    BIsTold();
    Unexcused();
    hide IsRun, AllReadable, Enabled, Apply, Before, Created, Told, Fired;
    run := Extend([Before()], Before(), Edit("b", Some("g")), Created());
    run := Extend(run, Created(), Notify("b"), Told());
    run := Extend(run, Told(), Fire(0, ["b"]), Fired());
  }

  lemma RunToAfter() returns (run: seq<World>)
    ensures IsRun(AImportsB(), run) && AllReadable(run) && run[0] == Before() && run[|run| - 1] == After()
  {
    BIsCached();
    BIsIndexed();
    Unexcused();
    hide IsRun, AllReadable, Enabled, Apply, Before, Fired, Looked, Updated, Indexed, After;
    run := RunToFired();
    run := Extend(run, Fired(), LookAt(true), Looked());
    run := Extend(run, Looked(), Update, Updated());
    run := Extend(run, Updated(), Close, Indexed());
    run := Extend(run, Indexed(), Flushed, After());
  }

  lemma Unexcused()
    ensures Created().excused == Told().excused == Fired().excused == {}
    ensures Looked().excused == Updated().excused == Indexed().excused == After().excused == {}
  {
  }

  /** From a cache that is what a rebuild gives, `b` is created: the watcher takes it in and comes to rest, and `a`
      still imports nothing. */
  lemma StaleImports() returns (run: seq<World>)
    ensures IsRun(AImportsB(), run) && AllReadable(run) && Quiet(run[0]) && Quiet(run[|run| - 1])
    ensures var v := run[0];
      v.disk == map["a" := "h"] && v.w.cache == map["a" := A] && AImportsB()("a", "h", v.disk.Keys) == A.imports
    ensures var v := run[|run| - 1];
      && v.disk == map["a" := "h", "b" := "g"] && v.w.cache == map["a" := A, "b" := B]
      && AImportsB()("a", "h", v.disk.Keys) == {"b"} != A.imports
  {
    hide IsRun, AllReadable;
    run := RunToAfter();
    assert "b" !in Before().disk.Keys && "b" in After().disk.Keys;
  }

  lemma StartsRun()
    ensures IsRun(AImportsB(), [Before()]) && AllReadable([Before()])
  {
    assert Importers(Before().w.cache, "a") == {};
  }
}
