/** Retention of ADIF source objects: a pass deletes each object and then marks its
    import, batch by batch, and stops with an error after a batch in which one failed. */
module AdifRetention {
  import opened Wrappers
  import opened Sequences

  type ImportId = nat

  datatype Import = Import(finished: bool, completedAt: Option<int>, bucket: string, path: string, deletedAt: Option<int>)

  datatype Object = Object(bucket: string, path: string)

  type Imports = map<ImportId, Import>

  predicate Due(i: Import, cutoff: int, bucket: string) {
    i.finished && i.completedAt.Some? && i.completedAt.value < cutoff && i.deletedAt.None? && i.bucket == bucket
  }

  function DueImports(imports: Imports, cutoff: int, bucket: string): set<ImportId> {
    set id | id in imports && Due(imports[id], cutoff, bucket)
  }

  /** The imports of the bucket that ended more than the given number of days ago and whose
      object is not deleted yet. */
  ghost function OverdueImports(imports: Imports, now: int, retentionDays: int, bucket: string): set<ImportId> {
    set id | id in imports && imports[id].finished && imports[id].bucket == bucket && imports[id].deletedAt == None &&
             EndedBefore(imports[id], now - retentionDays * 86400)
  }

  ghost predicate EndedBefore(i: Import, instant: int) {
    exists at :: i.completedAt == Some(at) && at < instant
  }

  lemma DueAreOverdue(imports: Imports, now: int, retentionDays: int, bucket: string)
    ensures DueImports(imports, Cutoff(now, retentionDays), bucket) == OverdueImports(imports, now, retentionDays, bucket)
  {
    forall id ensures id in DueImports(imports, Cutoff(now, retentionDays), bucket) <==> id in OverdueImports(imports, now, retentionDays, bucket) {
      if id in imports && imports[id].completedAt.Some? {
        assert imports[id].completedAt == Some(imports[id].completedAt.value);
      }
    }
  }

  datatype World = World(objects: set<Object>, imports: Imports)

  /** Nothing but the given imports is marked, with the given time, and nothing but their
      objects is deleted. */
  ghost predicate OnlyThese(before: World, after: World, due: set<ImportId>, bucket: string, now: int) {
    && after.imports.Keys == before.imports.Keys
    && (forall id | id in before.imports ::
          after.imports[id] == before.imports[id] ||
          (id in due && after.imports[id] == before.imports[id].(deletedAt := Some(now))))
    && after.objects <= before.objects
    && (forall o | o in before.objects && o !in after.objects :: BelongsTo(o, before.imports, due, bucket))
  }

  ghost predicate BelongsTo(o: Object, imports: Imports, due: set<ImportId>, bucket: string) {
    exists id :: id in due && id in imports && o == Object(bucket, imports[id].path)
  }

  lemma OnlyTheseChain(a: World, b: World, c: World, due: set<ImportId>, bucket: string, now: int)
    requires OnlyThese(a, b, due, bucket, now) && OnlyThese(b, c, due, bucket, now)
    ensures OnlyThese(a, c, due, bucket, now)
  {
    forall o | o in a.objects && o !in c.objects ensures BelongsTo(o, a.imports, due, bucket) {
      if o in b.objects {
        var id :| id in due && id in b.imports && o == Object(bucket, b.imports[id].path);
        assert id in a.imports && a.imports[id].path == b.imports[id].path;
      }
    }
  }

  lemma OnlyOne(before: World, after: World, due: set<ImportId>, bucket: string, now: int, id: ImportId)
    requires id in due && id in before.imports
    requires after.imports == before.imports || after.imports == before.imports[id := before.imports[id].(deletedAt := Some(now))]
    requires after.objects == before.objects || after.objects == before.objects - {Object(bucket, before.imports[id].path)}
    ensures OnlyThese(before, after, due, bucket, now)
  {
  }

  /** No import is marked, that was not at the beginning, while its object is still there. */
  ghost predicate MarkedAreGone(first: World, now: World) {
    && now.imports.Keys == first.imports.Keys
    && forall id | id in now.imports && now.imports[id] != first.imports[id] ::
         && now.imports[id] == first.imports[id].(deletedAt := now.imports[id].deletedAt)
         && Object(now.imports[id].bucket, now.imports[id].path) !in now.objects
  }

  datatype PassError = BadArguments | CouldNotDelete(ids: set<ImportId>)

  const DAY: int := 86400

  function Cutoff(now: int, retentionDays: int): int {
    now - retentionDays * DAY
  }

  class Retention {
    var objects: set<Object>
    var imports: Imports
    /** Every state that a crash could have left, in order. */
    ghost var points: seq<World>

    constructor (objects: set<Object>, imports: Imports)
      ensures Now() == World(objects, imports) && Safe()
    {
      this.objects, this.imports := objects, imports;
      points := [World(objects, imports)];
    }

    ghost function Now(): World
      reads this
    {
      World(objects, imports)
    }

    ghost predicate Safe()
      reads this
    {
      points != [] && points[|points| - 1] == Now() && forall i :: 0 <= i < |points| ==> MarkedAreGone(points[0], points[i])
    }

    method DeleteObject(target: Object) returns (ok: bool)
      requires Safe()
      modifies this`objects, this`points
      ensures Safe() && old(points) <= points
      ensures ok ==> target !in objects
      ensures objects == old(objects) || objects == old(objects) - {target}
    {
      var reached: bool := *;
      ok := *;
      if ok || reached {
        objects := objects - {target};
      }
      assert MarkedAreGone(points[0], points[|points| - 1]);
      points := points + [Now()];
    }

    /** Sets the marker once; a marked import keeps its first time. */
    method MarkSourceDeleted(id: ImportId, now: int) returns (ok: bool)
      requires Safe() && id in imports && Object(imports[id].bucket, imports[id].path) !in objects
      modifies this`imports, this`points
      ensures Safe() && old(points) <= points
      ensures imports == if ok && old(imports)[id].deletedAt.None?
                         then old(imports)[id := old(imports)[id].(deletedAt := Some(now))] else old(imports)
    {
      ok := *;
      if ok && imports[id].deletedAt.None? {
        ghost var before := Now();
        imports := imports[id := imports[id].(deletedAt := Some(now))];
        assert MarkedAreGone(points[0], points[|points| - 1]);
        MarkedToo(points[0], before, Now(), id);
        points := points + [Now()];
      }
    }

    /** At most `limit` due imports, each once; all of them if fewer. */
    method ListDue(cutoff: int, bucket: string, limit: nat) returns (records: seq<ImportId>)
      ensures Listing(records, imports, cutoff, bucket, limit)
    {
      records := [];
      var rest := DueImports(imports, cutoff, bucket);
      while rest != {} && |records| < limit
        invariant |records| <= limit && rest <= DueImports(imports, cutoff, bucket)
        invariant forall id :: id in DueImports(imports, cutoff, bucket) <==> id in records || id in rest
        invariant forall id :: id in records ==> id !in rest
        invariant Distinct(records)
        decreases rest
      {
        var id :| id in rest;
        records := records + [id];
        rest := rest - {id};
      }
    }

    /** One record: returns whether it was deleted and marked. */
    method Clean(id: ImportId, bucket: string, now: int) returns (ok: bool)
      requires Safe() && id in imports && imports[id].deletedAt.None?
      modifies this`objects, this`imports, this`points
      ensures Safe() && old(points) <= points
      ensures imports == if ok then old(imports)[id := old(imports)[id].(deletedAt := Some(now))] else old(imports)
      ensures objects == old(objects) || objects == old(objects) - {Object(bucket, old(imports)[id].path)}
      ensures ok ==> old(imports)[id].bucket == bucket && Object(bucket, old(imports)[id].path) !in objects
    {
      if imports[id].bucket != bucket {
        return false;
      }
      ok := DeleteObject(Object(bucket, imports[id].path));
      if ok {
        ok := MarkSourceDeleted(id, now);
      }
    }

    method CleanAll(records: seq<ImportId>, cutoff: int, bucket: string, now: int, ghost limit: nat)
      returns (deleted: nat, errors: set<ImportId>)
      requires Safe() && Listing(records, imports, cutoff, bucket, limit)
      modifies this`objects, this`imports, this`points
      ensures Safe() && old(points) <= points
      ensures imports.Keys == old(imports).Keys
      ensures DueImports(imports, cutoff, bucket) ==
        DueImports(old(imports), cutoff, bucket) - (Elements(records) - errors)
      ensures deleted + |errors| == |records| && forall id :: id in errors ==> id in records
      ensures OnlyThese(old(Now()), Now(), DueImports(old(imports), cutoff, bucket), bucket, now)
    {
      deleted, errors := 0, {};
      ghost var first := Now();
      ghost var before := DueImports(imports, cutoff, bucket);
      for i := 0 to |records|
        invariant Safe() && old(points) <= points && imports.Keys == old(imports).Keys
        invariant DueImports(imports, cutoff, bucket) == before - (Elements(records[..i]) - errors)
        invariant deleted + |errors| == i && OnlyThese(first, Now(), before, bucket, now)
        invariant forall id :: id in errors ==> id in records[..i]
      {
        var id := records[i];
        assert records[..i + 1] == records[..i] + [id];
        assert id in records && id !in records[..i] && id in DueImports(imports, cutoff, bucket);
        MarkedNotDue(imports, cutoff, bucket, id, now);
        OneMoreListed(before, records[..i], errors, id);
        ghost var here := Now();
        var ok := Clean(id, bucket, now);
        OnlyOne(here, Now(), before, bucket, now, id);
        OnlyTheseChain(first, here, Now(), before, bucket, now);
        if ok {
          deleted := deleted + 1;
        } else {
          errors := errors + {id};
        }
      }
      assert records[..|records|] == records;
    }

    /** Ends when nothing is due, or with the imports that failed. */
    method RunRetentionPass(bucket: string, retentionDays: int, batchSize: int, now: int) returns (r: Result<nat, PassError>)
      requires Safe()
      modifies this`objects, this`imports, this`points
      ensures Safe() && old(points) <= points
      ensures retentionDays < 1 || batchSize < 1 <==> r == Failure(BadArguments)
      ensures r.Success? ==> DueImports(imports, Cutoff(now, retentionDays), bucket) == {}
      ensures r.Success? ==> r.value == |DueImports(old(imports), Cutoff(now, retentionDays), bucket)|
      ensures r.Failure? && r.error.CouldNotDelete? ==>
        r.error.ids != {} && r.error.ids <= DueImports(imports, Cutoff(now, retentionDays), bucket)
      ensures DueImports(imports, Cutoff(now, retentionDays), bucket) <= DueImports(old(imports), Cutoff(now, retentionDays), bucket)
      ensures OnlyThese(old(Now()), Now(), OverdueImports(old(imports), now, retentionDays, bucket), bucket, now)
      ensures r.Success? ==> forall id :: id in OverdueImports(old(imports), now, retentionDays, bucket) ==>
        imports[id].deletedAt == Some(now)
    {
      DueAreOverdue(imports, now, retentionDays, bucket);
      ghost var first := Now();
      if retentionDays < 1 || batchSize < 1 {
        return Failure(BadArguments);
      }
      var cutoff := Cutoff(now, retentionDays);
      var deleted := 0;
      ghost var due := DueImports(imports, cutoff, bucket);
      while true
        invariant Safe() && old(points) <= points && OnlyThese(first, Now(), due, bucket, now)
        invariant DueImports(imports, cutoff, bucket) <= DueImports(old(imports), cutoff, bucket)
        invariant deleted + |DueImports(imports, cutoff, bucket)| == |DueImports(old(imports), cutoff, bucket)|
        decreases |DueImports(imports, cutoff, bucket)|
      {
        ghost var before, here := imports, Now();
        var records := ListDue(cutoff, bucket, batchSize);
        if records == [] {
          NothingListed(imports, cutoff, bucket, batchSize);
          NoneLeft(first, Now(), cutoff, bucket, now);
          return Success(deleted);
        }
        var more, errors := CleanAll(records, cutoff, bucket, now, batchSize);
        RoundOutcome(before, imports, records, errors, cutoff, bucket, batchSize);
        OnlyTheseWidens(here, Now(), DueImports(before, cutoff, bucket), due, bucket, now);
        OnlyTheseChain(first, here, Now(), due, bucket, now);
        if errors != {} {
          return Failure(CouldNotDelete(errors));
        }
        deleted := deleted + more;
        if |records| < batchSize {
          NoneLeft(first, Now(), cutoff, bucket, now);
          return Success(deleted);
        }
      }
    }
  }

  ghost predicate Listing(records: seq<ImportId>, imports: Imports, cutoff: int, bucket: string, limit: nat) {
    && |records| <= limit
    && Distinct(records)
    && (forall id :: id in records ==> id in DueImports(imports, cutoff, bucket))
    && (|records| < limit ==> forall id :: id in DueImports(imports, cutoff, bucket) ==> id in records)
  }

  lemma OnlyTheseWidens(a: World, b: World, less: set<ImportId>, more: set<ImportId>, bucket: string, now: int)
    requires OnlyThese(a, b, less, bucket, now) && less <= more
    ensures OnlyThese(a, b, more, bucket, now)
  {
    forall o | o in a.objects && o !in b.objects ensures BelongsTo(o, a.imports, more, bucket) {
      assert BelongsTo(o, a.imports, less, bucket);
    }
  }

  /** When nothing is due any more, everything that was due is marked. */
  lemma NoneLeft(before: World, after: World, cutoff: int, bucket: string, now: int)
    requires OnlyThese(before, after, DueImports(before.imports, cutoff, bucket), bucket, now)
    requires DueImports(after.imports, cutoff, bucket) == {}
    ensures forall id | id in DueImports(before.imports, cutoff, bucket) :: after.imports[id].deletedAt == Some(now)
  {
    forall id | id in DueImports(before.imports, cutoff, bucket) ensures after.imports[id].deletedAt == Some(now) {
      assert id !in DueImports(after.imports, cutoff, bucket);
    }
  }

  lemma MarkedNotDue(imports: Imports, cutoff: int, bucket: string, id: ImportId, now: int)
    requires id in imports
    ensures DueImports(imports[id := imports[id].(deletedAt := Some(now))], cutoff, bucket) == DueImports(imports, cutoff, bucket) - {id}
  {
  }

  lemma OneMoreListed(due: set<ImportId>, records: seq<ImportId>, errors: set<ImportId>, id: ImportId)
    requires id in due && id !in records && forall x :: x in errors ==> x in records
    ensures due - (Elements(records + [id]) - errors) == (due - (Elements(records) - errors)) - {id}
    ensures due - (Elements(records + [id]) - (errors + {id})) == due - (Elements(records) - errors)
  {
  }

  lemma NothingListed(imports: Imports, cutoff: int, bucket: string, limit: nat)
    requires Listing([], imports, cutoff, bucket, limit) && limit >= 1
    ensures DueImports(imports, cutoff, bucket) == {}
  {
  }

  lemma MarkedToo(first: World, before: World, after: World, id: ImportId)
    requires MarkedAreGone(first, before) && id in before.imports && before.imports[id].deletedAt.None?
    requires after.objects == before.objects && Object(before.imports[id].bucket, before.imports[id].path) !in before.objects
    requires exists now :: after.imports == before.imports[id := before.imports[id].(deletedAt := Some(now))]
    ensures MarkedAreGone(first, after)
  {
    assert before.imports[id] != first.imports[id] ==>
      before.imports[id] == first.imports[id].(deletedAt := before.imports[id].deletedAt);
  }

  /** What one batch leaves due. */
  lemma RoundOutcome(before: Imports, after: Imports, records: seq<ImportId>, errors: set<ImportId>,
                     cutoff: int, bucket: string, limit: nat)
    requires Listing(records, before, cutoff, bucket, limit) && forall id :: id in errors ==> id in records
    requires DueImports(after, cutoff, bucket) == DueImports(before, cutoff, bucket) - (Elements(records) - errors)
    ensures errors <= DueImports(after, cutoff, bucket) <= DueImports(before, cutoff, bucket)
    ensures errors == {} ==> |DueImports(after, cutoff, bucket)| + |records| == |DueImports(before, cutoff, bucket)|
    ensures errors == {} && |records| < limit ==> DueImports(after, cutoff, bucket) == {}
  {
    var due := DueImports(before, cutoff, bucket);
    DistinctSize(records);
    assert Elements(records) <= due;
    assert |due - Elements(records)| == |due| - |Elements(records)|;
  }
}
