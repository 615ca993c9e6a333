/** Plan validation (`validatePlanMetadata`): what an accepted plan guarantees the scheduler. */
module Plan {
  import opened Prelude
  import opened Chunks
  import opened Rounds

  const UNKNOWN := "<unknown>"

  /** `exclusiveResources` as it may arrive; `None` entries are not strings. */
  datatype Resources = Absent | NotAList | Entries(entries: seq<Option<string>>)

  /** One metadata block as it may arrive. */
  datatype Item =
    | NotAnObject
    | Block(id: Option<string>, declaredFiles: Option<seq<string>>, dependsOn: Option<seq<Option<string>>>, resources: Resources)

  datatype Field = Metadata | Id | DeclaredFiles | DependsOn | ExclusiveResources

  datatype ValidationError = ValidationError(chunkId: string, field: Field)

  predicate HasId(item: Item) {
    item.Block? && item.id.Some? && item.id.value != ""
  }

  function ChunkIdOf(item: Item): string {
    if HasId(item) then item.id.value else UNKNOWN
  }

  ghost predicate GoodResources(r: Resources) {
    match r
    case Absent => true
    case NotAList => false
    case Entries(es) => forall e :: e in es ==> e.Some? && e.value != ""
  }

  ghost predicate GoodBlock(items: seq<Item>, item: Item) {
    && HasId(item) && item.id.value != UNKNOWN
    && item.declaredFiles.Some? && item.declaredFiles.value != []
    && item.dependsOn.Some?
    && (forall d :: d in item.dependsOn.value ==> d.Some? && exists other :: other in items && HasId(other) && other.id == d)
    && GoodResources(item.resources)
  }

  /** The plans the validator lets through. */
  ghost predicate Accepted(items: seq<Item>) {
    && (forall i :: 0 <= i < |items| ==> GoodBlock(items, items[i]))
    && (forall i, j :: 0 <= i < j < |items| ==> items[i].id != items[j].id)
  }

  /** What is wrong with block `i`, field by field. */
  ghost predicate Faulty(items: seq<Item>, i: nat, field: Field)
    requires i < |items|
  {
    var item := items[i];
    match field
    case Metadata => item.NotAnObject?
    case Id => item.Block? && (!HasId(item) || item.id.value == UNKNOWN || exists j :: 0 <= j < i && HasId(items[j]) && items[j].id == item.id)
    case DeclaredFiles => item.Block? && (item.declaredFiles.None? || item.declaredFiles.value == [])
    case DependsOn => item.Block? && (item.dependsOn.None? || exists d :: d in item.dependsOn.value && Dangling(items, d))
    case ExclusiveResources => item.Block? && !GoodResources(item.resources)
  }

  /** No block has this id. */
  ghost predicate Dangling(items: seq<Item>, d: Option<string>) {
    d.None? || forall other :: other in items && HasId(other) ==> other.id != d
  }

  /** The faults of the first `n` blocks. */
  ghost predicate Blames(items: seq<Item>, n: nat, e: ValidationError)
    requires n <= |items|
  {
    exists i: nat :: i < n && e.chunkId == ChunkIdOf(items[i]) && Faulty(items, i, e.field)
  }

  method CheckDependencies(deps: seq<Option<string>>, known: set<string>, chunkId: string) returns (errors: seq<ValidationError>)
    ensures forall e :: e in errors <==>
      e == ValidationError(chunkId, DependsOn) && exists d :: d in deps && (d.None? || d.value !in known)
  {
    errors := [];
    for i := 0 to |deps|
      invariant forall e :: e in errors <==>
        e == ValidationError(chunkId, DependsOn) && exists k :: 0 <= k < i && (deps[k].None? || deps[k].value !in known)
    {
      if deps[i].None? || deps[i].value !in known {
        errors := errors + [ValidationError(chunkId, DependsOn)];
      }
    }
  }

  method CheckResources(r: Resources, chunkId: string) returns (errors: seq<ValidationError>)
    ensures forall e :: e in errors <==> e == ValidationError(chunkId, ExclusiveResources) && !GoodResources(r)
  {
    errors := [];
    match r
    case Absent =>
    case NotAList => errors := [ValidationError(chunkId, ExclusiveResources)];
    case Entries(es) =>
      for i := 0 to |es|
        invariant forall e :: e in errors <==>
          e == ValidationError(chunkId, ExclusiveResources) && exists k :: 0 <= k < i && (es[k].None? || es[k].value == "")
      {
        if es[i].None? || es[i].value == "" {
          errors := errors + [ValidationError(chunkId, ExclusiveResources)];
        }
      }
      assert GoodResources(r) <==> forall k :: 0 <= k < |es| ==> es[k].Some? && es[k].value != "";
  }

  /** The ids known in the plan, and those seen in the first `i` blocks. */
  function KnownIds(items: seq<Item>): set<string> {
    set item | item in items && HasId(item) :: item.id.value
  }

  function SeenIds(items: seq<Item>, i: nat): set<string>
    requires i <= |items|
  {
    set k | 0 <= k < i && HasId(items[k]) && items[k].id.value != UNKNOWN :: items[k].id.value
  }

  method CheckId(item: Item, seen: set<string>) returns (errors: seq<ValidationError>, seen': set<string>)
    requires item.Block?
    ensures forall e :: e in errors <==>
      e == ValidationError(ChunkIdOf(item), Id) && (!HasId(item) || item.id.value == UNKNOWN || item.id.value in seen)
    ensures seen' == if ChunkIdOf(item) == UNKNOWN then seen else seen + {ChunkIdOf(item)}
  {
    errors, seen' := [], seen;
    var chunkId := ChunkIdOf(item);
    if chunkId == UNKNOWN {
      errors := errors + [ValidationError(chunkId, Id)];
    }
    if chunkId != UNKNOWN {
      if chunkId in seen {
        errors := errors + [ValidationError(chunkId, Id)];
      } else {
        seen' := seen + {chunkId};
      }
    }
  }

  /** The checks on block `i`. */
  method CheckBlock(items: seq<Item>, i: nat, known: set<string>, seen: set<string>)
    returns (errors: seq<ValidationError>, seen': set<string>)
    requires i < |items| && items[i].Block? && known == KnownIds(items) && seen == SeenIds(items, i)
    ensures forall e :: e in errors <==> e.chunkId == ChunkIdOf(items[i]) && Faulty(items, i, e.field)
    ensures seen' == SeenIds(items, i + 1)
  {
    hide KnownIds, SeenIds, GoodResources;
    var item := items[i];
    var chunkId := ChunkIdOf(item);
    SeenStep(items, i);
    errors, seen' := CheckId(item, seen);
    if item.declaredFiles.None? || |item.declaredFiles.value| == 0 {
      errors := errors + [ValidationError(chunkId, DeclaredFiles)];
    }
    if item.dependsOn.None? {
      errors := errors + [ValidationError(chunkId, DependsOn)];
    } else {
      var found := CheckDependencies(item.dependsOn.value, known, chunkId);
      DanglingIff(items, item.dependsOn.value);
      errors := errors + found;
    }
    var found := CheckResources(item.resources, chunkId);
    errors := errors + found;
  }

  lemma SeenStep(items: seq<Item>, i: nat)
    requires i < |items|
    ensures SeenIds(items, i + 1) ==
      if ChunkIdOf(items[i]) == UNKNOWN then SeenIds(items, i) else SeenIds(items, i) + {ChunkIdOf(items[i])}
    ensures HasId(items[i]) && items[i].id.value != UNKNOWN ==>
      (items[i].id.value in SeenIds(items, i) <==> exists j :: 0 <= j < i && HasId(items[j]) && items[j].id == items[i].id)
  {
  }

  lemma DanglingIff(items: seq<Item>, deps: seq<Option<string>>)
    ensures (exists d :: d in deps && (d.None? || d.value !in KnownIds(items))) <==> exists d :: d in deps && Dangling(items, d)
  {
    forall d: Option<string>
      ensures d.None? || d.value !in KnownIds(items) <==> Dangling(items, d)
    {
    }
  }

  /** `None` stands for input that is not a list. The errors name exactly the faults of the blocks. */
  method ValidatePlanMetadata(plan: Option<seq<Item>>) returns (ok: bool, errors: seq<ValidationError>)
    ensures ok <==> errors == []
    ensures ok <==> plan.Some? && Accepted(plan.value)
    ensures plan.None? ==> errors == [ValidationError(UNKNOWN, Metadata)]
    ensures plan.Some? ==> forall e :: e in errors <==> Blames(plan.value, |plan.value|, e)
  {
    if plan.None? {
      return false, [ValidationError(UNKNOWN, Metadata)];
    }
    var items := plan.value;
    var known := set item | item in items && HasId(item) :: item.id.value;
    var seen: set<string> := {};
    errors := [];
    for i := 0 to |items|
      invariant seen == SeenIds(items, i)
      invariant forall e :: e in errors <==> Blames(items, i, e)
    {
      hide Faulty, ChunkIdOf;
      if items[i].NotAnObject? {
        NotAnObjectFaulty(items, i);
        errors := errors + [ValidationError(UNKNOWN, Metadata)];
      } else {
        var found, now := CheckBlock(items, i, known, seen);
        errors, seen := errors + found, now;
      }
    }
    NoFaults(items, errors);
    ok := errors == [];
  }

  lemma NotAnObjectFaulty(items: seq<Item>, i: nat)
    requires i < |items| && items[i].NotAnObject?
    ensures ChunkIdOf(items[i]) == UNKNOWN && forall field :: Faulty(items, i, field) <==> field == Metadata
    ensures SeenIds(items, i + 1) == SeenIds(items, i)
  {
    SeenStep(items, i);
  }

  /** A plan is accepted exactly when none of its blocks has a fault. */
  lemma NoFaults(items: seq<Item>, errors: seq<ValidationError>)
    requires forall e :: e in errors <==> Blames(items, |items|, e)
    ensures errors == [] <==> Accepted(items)
  {
    hide Faulty;
    FaultsMean(items);
    if !Accepted(items) {
      var i: nat, field :| i < |items| && Faulty(items, i, field);
      assert Blames(items, |items|, ValidationError(ChunkIdOf(items[i]), field));
      assert ValidationError(ChunkIdOf(items[i]), field) in errors;
    }
    if errors != [] {
      BlamedIsBad(items, errors[0]);
    }
  }

  lemma BlamedIsBad(items: seq<Item>, e: ValidationError)
    requires Blames(items, |items|, e)
    ensures !Accepted(items)
  {
    hide Faulty;
    var i: nat :| i < |items| && e.chunkId == ChunkIdOf(items[i]) && Faulty(items, i, e.field);
    FaultIsBad(items, i, e.field);
  }

  lemma FaultsMean(items: seq<Item>)
    ensures Accepted(items) <==> forall i: nat, field :: i < |items| ==> !Faulty(items, i, field)
  {
    hide GoodResources;
    if forall i: nat, field :: i < |items| ==> !Faulty(items, i, field) {
      forall i: nat | i < |items|
        ensures GoodBlock(items, items[i])
      {
        NoFaultIsGood(items, i);
      }
      forall i: nat, j: nat | i < j < |items|
        ensures items[i].id != items[j].id
      {
        assert !Faulty(items, j, Id);
      }
    } else {
      var i: nat, field :| i < |items| && Faulty(items, i, field);
      FaultIsBad(items, i, field);
    }
  }

  lemma NoFaultIsGood(items: seq<Item>, i: nat)
    requires i < |items| && forall field :: !Faulty(items, i, field)
    ensures GoodBlock(items, items[i])
  {
    hide GoodResources;
    assert !Faulty(items, i, Metadata) && !Faulty(items, i, Id) && !Faulty(items, i, DeclaredFiles);
    assert !Faulty(items, i, ExclusiveResources);
    assert !Faulty(items, i, DependsOn);
    forall d | d in items[i].dependsOn.value
      ensures d.Some? && exists other :: other in items && HasId(other) && other.id == d
    {
      assert !Dangling(items, d);
    }
  }

  lemma FaultIsBad(items: seq<Item>, i: nat, field: Field)
    requires i < |items| && Faulty(items, i, field)
    ensures !Accepted(items)
  {
    hide GoodResources;
    if field != Id || !HasId(items[i]) || items[i].id.value == UNKNOWN {
      assert !GoodBlock(items, items[i]);
    }
  }

  /** A block as the scheduler needs it: a name of its own that is no placeholder, at least one file, dependencies that
      name blocks of the plan, and, if any, resources with names. */
  ghost predicate WellFormed(items: seq<Item>, item: Item) {
    && item.Block? && item.id.Some? && item.id.value != "" && item.id.value != "<unknown>"
    && item.declaredFiles.Some? && |item.declaredFiles.value| > 0 && item.dependsOn.Some?
    && (forall d :: d in item.dependsOn.value ==>
          d.Some? && d.value != "" && exists k :: 0 <= k < |items| && items[k].Block? && items[k].id == d)
    && !item.resources.NotAList?
    && (item.resources.Entries? ==> forall x :: x in item.resources.entries ==> x.Some? && |x.value| > 0)
  }

  lemma ListedMeans(items: seq<Item>, d: Option<string>)
    ensures (exists other :: other in items && HasId(other) && other.id == d) <==>
      d.Some? && d.value != "" && exists k :: 0 <= k < |items| && items[k].Block? && items[k].id == d
  {
    if other :| other in items && HasId(other) && other.id == d {
      var k :| 0 <= k < |items| && items[k] == other;
    }
  }

  lemma GoodMeans(items: seq<Item>, item: Item)
    ensures GoodBlock(items, item) <==> WellFormed(items, item)
  {
    forall d: Option<string>
      ensures (exists other :: other in items && HasId(other) && other.id == d) <==>
        d.Some? && d.value != "" && exists k :: 0 <= k < |items| && items[k].Block? && items[k].id == d
    {
      ListedMeans(items, d);
    }
    if item.Block? {
      ResourcesMean(item.resources);
    }
    hide GoodResources;
  }

  lemma ResourcesMean(r: Resources)
    ensures GoodResources(r) <==> (!r.NotAList? && (r.Entries? ==> forall x :: x in r.entries ==> x.Some? && |x.value| > 0))
  {
  }

  /** The plans that are let through, written out. */
  lemma AcceptedMeans(items: seq<Item>)
    ensures Accepted(items) <==>
      && (forall i :: 0 <= i < |items| ==> WellFormed(items, items[i]))
      && (forall i, j :: 0 <= i < j < |items| ==> items[i].id != items[j].id)
  {
    hide GoodBlock, WellFormed;
    forall i | 0 <= i < |items|
      ensures GoodBlock(items, items[i]) <==> WellFormed(items, items[i])
    {
      GoodMeans(items, items[i]);
    }
  }

  // ----- what acceptance buys

  function Strings(s: seq<Option<string>>): (r: seq<string>)
    requires forall x :: x in s ==> x.Some?
    ensures |r| == |s| && forall i :: 0 <= i < |s| ==> r[i] == s[i].value
  {
    if s == [] then [] else Strings(s[..|s| - 1]) + [s[|s| - 1].value]
  }

  function ToChunk(item: Item): Chunk
    requires item.Block? && item.id.Some? && item.declaredFiles.Some? && item.dependsOn.Some?
    requires forall x :: x in item.dependsOn.value ==> x.Some?
    requires item.resources.Entries? ==> forall x :: x in item.resources.entries ==> x.Some?
  {
    Chunk(item.id.value, Strings(item.dependsOn.value), item.declaredFiles.value,
          if item.resources.Entries? then Some(Strings(item.resources.entries)) else None)
  }

  /** The chunks of a plan as the scheduler receives them. */
  ghost predicate IsPlanOf(items: seq<Item>, chunks: seq<Chunk>)
    requires Accepted(items)
  {
    |chunks| == |items| && forall i :: 0 <= i < |items| ==> GoodBlock(items, items[i]) && chunks[i] == ToChunk(items[i])
  }

  /** An accepted plan has distinct ids and names no unknown dependency: the scheduler ends, and the only error left
      is a cycle. */
  lemma AcceptedIsSchedulable(items: seq<Item>, chunks: seq<Chunk>)
    requires Accepted(items) && IsPlanOf(items, chunks)
    ensures DistinctIds(chunks) && AllKnown(chunks) && Settles(chunks)
  {
    forall c, d | c in chunks && d in c.dependsOn
      ensures d in IdSet(chunks)
    {
      var i :| 0 <= i < |chunks| && chunks[i] == c;
      var j :| 0 <= j < |c.dependsOn| && c.dependsOn[j] == d;
      assert items[i].dependsOn.value[j] in items[i].dependsOn.value;
      var other :| other in items && HasId(other) && other.id == Some(d);
      var k :| 0 <= k < |items| && items[k] == other;
      assert chunks[k] in chunks && chunks[k].id == d;
    }
    DistinctSettles(chunks);
  }
}
