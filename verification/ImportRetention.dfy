/** Retention of geodata imports: which object a run owns, and the sweep that deletes
    objects before the rows that own them. */
module ImportRetention {
  import opened Wrappers
  import opened Sequences

  type RunId = nat

  // ------------------------------------------------ the object a run owns

  datatype Metadata = NotAnObject | NoSource | Source(bucket: Option<string>, key: Option<string>)

  datatype Key = Key(bucket: string, path: string)

  datatype SourceError = BadMetadata | OutsideBucket | BadKey | UnsafeBucket | UnsafeKey

  function Split(s: string, at: char): (parts: seq<string>)
    ensures parts != []
    decreases |s|
  {
    if s == "" then [""]
    else
      var rest := Split(s[1..], at);
      if s[0] == at then [""] + rest else [[s[0]] + rest[0]] + rest[1..]
  }

  ghost function Glue(parts: seq<string>, at: char): string {
    if parts == [] then "" else if |parts| == 1 then parts[0] else parts[0] + [at] + Glue(parts[1..], at)
  }

  /** str.split(at): the parts do not contain the character and give the text when it is
      put between them again. */
  lemma {:induction false} SplitIs(s: string, at: char)
    ensures Glue(Split(s, at), at) == s
    ensures forall part | part in Split(s, at) :: at !in part
    decreases |s|
  {
    if s != "" {
      SplitIs(s[1..], at);
      var rest := Split(s[1..], at);
      assert s == [s[0]] + s[1..];
      if s[0] == at {
        assert ([""] + rest)[1..] == rest;
      } else {
        assert ([[s[0]] + rest[0]] + rest[1..])[1..] == rest[1..];
      }
    }
  }

  predicate Blank(s: string) {
    forall c | c in s :: IsSpace(c)
  }

  predicate SafeBucket(bucket: string) {
    bucket != "" && '/' !in bucket && '\\' !in bucket && bucket != "." && bucket != ".."
  }

  predicate SafeKey(path: string) {
    && !("/" <= path)
    && '\\' !in path
    && forall i :: 0 <= i < |Split(path, '/')| ==> Split(path, '/')[i] !in ["", ".", ".."]
  }

  /** The source object of a run, if it has one and it is this bucket's to delete. An
      empty bucket or key counts as none. */
  function SourceObject(m: Metadata, importBucket: string): Result<Option<Key>, SourceError> {
    match m
    case NotAnObject => Failure(BadMetadata)
    case NoSource => Success(None)
    case Source(bucket, key) =>
      if key.None? || key.value == "" then Success(None)
      else if (if bucket.None? || bucket.value == "" then importBucket else bucket.value) != importBucket then Failure(OutsideBucket)
      else if Blank(key.value) then Failure(BadKey)
      else if !SafeBucket(importBucket) then Failure(UnsafeBucket)
      else if !SafeKey(key.value) then Failure(UnsafeKey)
      else Success(Some(Key(importBucket, key.value)))
  }

  /** The metadata names this key: the bucket it gives, or else the import bucket, is this one. */
  ghost predicate NamesKey(m: Metadata, importBucket: string, key: Key) {
    && m.Source? && key.path != "" && m.key == Some(key.path)
    && key.bucket == importBucket && m.bucket in {None, Some(""), Some(importBucket)}
  }

  ghost predicate Plain(path: string) {
    forall i :: 0 <= i < |Split(path, '/')| ==> Split(path, '/')[i] !in ["", ".", ".."]
  }

  ghost predicate PlainBucket(bucket: string) {
    bucket !in ["", ".", ".."] && '/' !in bucket && '\\' !in bucket
  }

  ghost predicate HasText(path: string) {
    exists c :: c in path && !IsSpace(c)
  }

  /** An object is found exactly for a key that the metadata names and that is safe; none
      is found exactly if the metadata gives no key; everything else is an error. */
  lemma SourceObjectIs(m: Metadata, importBucket: string)
    ensures forall key :: SourceObject(m, importBucket) == Success(Some(key)) <==>
      NamesKey(m, importBucket, key) && HasText(key.path) && PlainBucket(importBucket) && Plain(key.path) && '\\' !in key.path
    ensures SourceObject(m, importBucket) == Success(None) <==>
      m.NoSource? || (m.Source? && m.key in {None, Some("")})
  {
    if m.Source? && m.key.Some? && "/" <= m.key.value {
      assert m.key.value[0] == '/' && Split(m.key.value, '/')[0] == "";
    }
  }

  /** The place a path leads to: empty and "." segments stay put, ".." goes up. */
  ghost function Resolve(parts: seq<string>): seq<string>
    decreases |parts|
  {
    if parts == [] then []
    else
      var front, last := Resolve(parts[..|parts| - 1]), parts[|parts| - 1];
      if last == "" || last == "." then front
      else if last == ".." then (if front == [] then [] else front[..|front| - 1])
      else front + [last]
  }

  lemma {:induction false} ResolveShrinks(parts: seq<string>)
    ensures |Resolve(parts)| <= |parts|
    ensures |Resolve(parts)| == |parts| ==>
      Resolve(parts) == parts && forall i :: 0 <= i < |parts| ==> parts[i] !in ["", ".", ".."]
    decreases |parts|
  {
    if parts != [] {
      var front := parts[..|parts| - 1];
      ResolveShrinks(front);
      assert parts == front + [parts[|parts| - 1]];
    }
  }

  lemma {:induction false} PlainResolvesToItself(parts: seq<string>)
    requires forall i :: 0 <= i < |parts| ==> parts[i] !in ["", ".", ".."]
    ensures Resolve(parts) == parts
    decreases |parts|
  {
    if parts != [] {
      var front := parts[..|parts| - 1];
      PlainResolvesToItself(front);
      assert parts == front + [parts[|parts| - 1]];
    }
  }

  /** A key is accepted exactly when it is its own resolved path, without backslashes, so
      it names one object below the bucket. */
  lemma SafeKeysAreCanonical(path: string)
    ensures SafeKey(path) <==> '\\' !in path && Resolve(Split(path, '/')) == Split(path, '/')
  {
    var parts := Split(path, '/');
    ResolveShrinks(parts);
    if "/" <= path {
      assert path[0] == '/' && parts[0] == "";
    }
    if SafeKey(path) {
      PlainResolvesToItself(parts);
    }
  }

  // ------------------------------------------------ rows

  datatype RunRow = RunRow(
    status: string,
    startedAt: int,
    heartbeatAt: Option<int>,
    completedAt: Option<int>,
    processedAt: Option<int>,
    metadata: Metadata)

  const STALE_STATUSES := {
    "UPLOAD_PENDING", "QUEUED", "PROCESSING", "CANCELLING", "CANCELLED", "PREPROCESSED",
    "PREPROCESSED_WITH_ERRORS", "COMPLETED", "COMPLETED_WITH_ERRORS", "FAILED"}

  function Later(a: int, b: Option<int>): int {
    if b.Some? && a < b.value then b.value else a
  }

  predicate Due(row: RunRow, cutoff: int) {
    || (row.status == "PROCESSED" && row.processedAt.Some? && row.processedAt.value < cutoff)
    || (row.status in STALE_STATUSES && Later(Later(row.startedAt, row.heartbeatAt), row.completedAt) < cutoff)
  }

  /** Finalized and processed before the cutoff, or started before it in one of the other
      states without any later sign of life. */
  ghost predicate Overdue(row: RunRow, cutoff: int) {
    || (row.status == "PROCESSED" && exists at :: row.processedAt == Some(at) && at < cutoff)
    || (row.status in ["UPLOAD_PENDING", "QUEUED", "PROCESSING", "CANCELLING", "CANCELLED", "PREPROCESSED",
                       "PREPROCESSED_WITH_ERRORS", "COMPLETED", "COMPLETED_WITH_ERRORS", "FAILED"] &&
        row.startedAt < cutoff &&
        (forall at | row.heartbeatAt == Some(at) :: at < cutoff) &&
        (forall at | row.completedAt == Some(at) :: at < cutoff))
  }

  lemma DueIsOverdue(row: RunRow, cutoff: int)
    ensures Due(row, cutoff) <==> Overdue(row, cutoff)
  {
    if Due(row, cutoff) && row.status == "PROCESSED" {
      assert row.processedAt == Some(row.processedAt.value);
    }
  }

  type Rows = map<RunId, RunRow>

  function DueRuns(rows: Rows, cutoff: int): set<RunId> {
    set id | id in rows && Due(rows[id], cutoff)
  }

  ghost predicate OwnsObject(row: RunRow, bucket: string, key: Key) {
    NamesKey(row.metadata, bucket, key)
  }

  ghost predicate Owned(rows: Rows, bucket: string, key: Key) {
    exists id :: id in rows && OwnsObject(rows[id], bucket, key)
  }

  datatype World = World(objects: set<Key>, rows: Rows)

  /** No object has lost its last owner since the beginning. */
  ghost predicate NoOrphans(first: World, now: World, bucket: string) {
    forall key | key in now.objects :: Owned(first.rows, bucket, key) ==> Owned(now.rows, bucket, key)
  }

  /** Rows only disappear, and objects too; a row that is gone has taken every object its
      metadata names with it, and an object that is gone was named by an overdue row. */
  ghost predicate Cleared(before: World, after: World, bucket: string, cutoff: int) {
    && after.rows.Keys <= before.rows.Keys && (forall id | id in after.rows :: after.rows[id] == before.rows[id])
    && after.objects <= before.objects
    && (forall id, key | id in before.rows && id !in after.rows && NamesKey(before.rows[id].metadata, bucket, key) ::
          key !in after.objects)
    && (forall key | key in before.objects && key !in after.objects :: NamedByOverdue(before.rows, bucket, cutoff, key))
  }

  ghost predicate NamedByOverdue(rows: Rows, bucket: string, cutoff: int, key: Key) {
    exists id :: id in rows && Overdue(rows[id], cutoff) && NamesKey(rows[id].metadata, bucket, key)
  }

  lemma ClearedChain(a: World, b: World, c: World, bucket: string, cutoff: int)
    requires Cleared(a, b, bucket, cutoff) && Cleared(b, c, bucket, cutoff)
    ensures Cleared(a, c, bucket, cutoff)
  {
    forall key | key in a.objects && key !in c.objects ensures NamedByOverdue(a.rows, bucket, cutoff, key) {
      if key in b.objects {
        var id :| id in b.rows && Overdue(b.rows[id], cutoff) && NamesKey(b.rows[id].metadata, bucket, key);
        assert id in a.rows && a.rows[id] == b.rows[id];
      }
    }
    forall id, key | id in a.rows && id !in c.rows && NamesKey(a.rows[id].metadata, bucket, key) ensures key !in c.objects {
      if id in b.rows {
        assert b.rows[id] == a.rows[id];
      }
    }
  }

  // ------------------------------------------------ the sweep

  const DAY: int := 86400

  datatype ArgumentError = NotPositive

  datatype Counts = Counts(eligible: nat, purged: nat, failed: set<RunId>)

  class Retention {
    const bucket: string
    const retentionDays: int
    const cutoff: int
    var objects: set<Key>
    var rows: Rows
    /** Every state that a crash could have left, in order. */
    ghost var points: seq<World>

    constructor (bucket: string, retentionDays: int, now: int, objects: set<Key>, rows: Rows)
      ensures this.bucket == bucket && this.retentionDays == retentionDays
      ensures cutoff == now - retentionDays * 86400
      ensures Now() == World(objects, rows) && Safe()
    {
      this.bucket, this.retentionDays, this.objects, this.rows := bucket, retentionDays, objects, rows;
      cutoff := now - retentionDays * DAY;
      points := [World(objects, rows)];
    }

    ghost function Now(): World
      reads this
    {
      World(objects, rows)
    }

    /** Whatever the last point of a crash, no object is left without its owning row. */
    ghost predicate Safe()
      reads this
    {
      points != [] && points[|points| - 1] == Now() && forall i :: 0 <= i < |points| ==> NoOrphans(points[0], points[i], bucket)
    }

    /** Object storage: a delete that succeeds is certain, one that fails may have worked. */
    method DeleteObject(key: Key) returns (ok: bool)
      requires Safe()
      modifies this`objects, this`points
      ensures Safe() && old(points) <= points
      ensures objects == old(objects) || objects == old(objects) - {key}
      ensures ok ==> key !in objects
    {
      var reached: bool := *;
      ok := *;
      if ok || reached {
        objects := objects - {key};
      }
      assert NoOrphans(points[0], points[|points| - 1], bucket);
      points := points + [Now()];
    }

    /** One database transaction; it may fail, and then nothing has changed. */
    method PurgeRun(id: RunId) returns (r: Result<bool, ()>)
      requires Safe()
      requires id in rows ==> forall key :: OwnsObject(rows[id], bucket, key) ==> key !in objects
      modifies this`rows, this`points
      ensures Safe() && old(points) <= points
      ensures rows == if r == Success(true) then old(rows) - {id} else old(rows)
      ensures r.Success? ==> r.value == (id in old(rows) && Overdue(old(rows)[id], cutoff))
    {
      var fails: bool := *;
      if fails {
        return Failure(());
      }
      if id in rows {
        DueIsOverdue(rows[id], cutoff);
      }
      if id !in rows || !Due(rows[id], cutoff) {
        return Success(false);
      }
      ghost var before := Now();
      rows := rows - {id};
      StillOwned(points[0], before, Now(), bucket, id);
      points := points + [Now()];
      return Success(true);
    }

    /** At most `limit` due runs outside `excluded`, each once, in some order. */
    method SelectDue(excluded: set<RunId>, limit: nat) returns (selected: seq<RunId>)
      ensures Selection(selected, rows, cutoff, excluded, limit)
    {
      selected := [];
      var rest := DueRuns(rows, cutoff) - excluded;
      while rest != {} && |selected| < limit
        invariant Distinct(selected) && |selected| <= limit
        invariant rest <= DueRuns(rows, cutoff) - excluded
        invariant forall id :: id in DueRuns(rows, cutoff) - excluded <==> id in selected || id in rest
        invariant forall id :: id in selected ==> id !in rest
        decreases rest
      {
        var id :| id in rest;
        selected := selected + [id];
        rest := rest - {id};
      }
    }

    /** One run: its object first, then its row. Returns whether it failed. */
    method PurgeOne(id: RunId) returns (failed: bool)
      requires Safe() && id in DueRuns(rows, cutoff)
      modifies this`objects, this`rows, this`points
      ensures Safe() && old(points) <= points
      ensures rows == if failed then old(rows) else old(rows) - {id}
      ensures Cleared(old(Now()), Now(), bucket, cutoff)
    {
      var source := SourceObject(rows[id].metadata, bucket);
      SourceObjectIs(rows[id].metadata, bucket);
      DueIsOverdue(rows[id], cutoff);
      ghost var before := Now();
      if source.Failure? {
        return true;
      }
      if source.value.Some? {
        var ok := DeleteObject(source.value.value);
        DeletedIsCleared(before, Now(), bucket, cutoff, id, source.value.value);
        if !ok {
          return true;
        }
      }
      var r := PurgeRun(id);
      GoneIsCleared(before, Now(), bucket, cutoff, id);
      return r.Failure?;
    }

    method PurgeExpiredImports(batchSize: int, excluded: set<RunId>) returns (r: Result<Counts, ArgumentError>)
      requires Safe()
      modifies this`objects, this`rows, this`points
      ensures Safe() && old(points) <= points
      ensures r.Failure? <==> retentionDays < 1 || batchSize < 1
      ensures r.Failure? ==> Now() == old(Now())
      ensures r.Success? ==> BatchDone(old(rows), rows, cutoff, excluded, batchSize, r.value)
      ensures Cleared(old(Now()), Now(), bucket, cutoff)
    {
      if retentionDays < 1 || batchSize < 1 {
        return Failure(NotPositive);
      }
      var selected := SelectDue(excluded, batchSize);
      ghost var before := rows;
      var purged, failed, gone := PurgeSelected(selected, excluded, batchSize);
      BatchOutcome(before, rows, cutoff, excluded, batchSize, selected, gone, failed);
      FewerRows(before, rows, gone);
      return Success(Counts(|selected|, purged, failed));
    }

    method PurgeSelected(selected: seq<RunId>, ghost excluded: set<RunId>, ghost limit: nat)
      returns (purged: nat, failed: set<RunId>, ghost gone: set<RunId>)
      requires Safe() && Selection(selected, rows, cutoff, excluded, limit)
      modifies this`objects, this`rows, this`points
      ensures Safe() && old(points) <= points && rows == old(rows) - gone
      ensures Cleared(old(Now()), Now(), bucket, cutoff)
      ensures Sorted(selected, |selected|, gone, failed) && |gone| == purged
    {
      purged, failed, gone := 0, {}, {};
      ghost var before, first := rows, Now();
      for i := 0 to |selected|
        invariant Safe() && old(points) <= points
        invariant rows == before - gone && Cleared(first, Now(), bucket, cutoff)
        invariant Sorted(selected, i, gone, failed) && |gone| == purged
      {
        var id := selected[i];
        NotYetSorted(selected, i, gone, failed);
        StillDue(before, cutoff, excluded, limit, selected, i, gone);
        WithoutOneMore(before, gone, id);
        ghost var here := Now();
        var bad := PurgeOne(id);
        ClearedChain(first, here, Now(), bucket, cutoff);
        if bad {
          failed := failed + {id};
        } else {
          gone := gone + {id};
          purged := purged + 1;
        }
      }
    }

    /** Drains the due runs batch by batch; a run that failed is not tried again. */
    method PurgeSweep(batchSize: int) returns (r: Result<Counts, ArgumentError>, ghost batches: seq<Counts>)
      requires Safe()
      modifies this`objects, this`rows, this`points
      ensures Safe() && old(points) <= points
      ensures r.Failure? <==> retentionDays < 1 || batchSize < 1
      ensures r.Failure? ==> Now() == old(Now())
      ensures r.Success? ==> Drained(old(rows), rows, cutoff, r.value, batches, batchSize)
      ensures Cleared(old(Now()), Now(), bucket, cutoff)
    {
      var total := Counts(0, 0, {});
      batches := [];
      ghost var before, first := rows, Now();
      var done := false;
      while !done
        invariant Safe() && old(points) <= points && Cleared(first, Now(), bucket, cutoff)
        invariant retentionDays < 1 || batchSize < 1 ==> Now() == old(Now())
        invariant !done ==> Steady(before, rows, cutoff, total, batches, batchSize)
        invariant done ==> retentionDays >= 1 && batchSize >= 1 && Drained(before, rows, cutoff, total, batches, batchSize)
        decreases !done, |rows|
      {
        ghost var here, world := rows, Now();
        var result := PurgeExpiredImports(batchSize, total.failed);
        ClearedChain(first, world, Now(), bucket, cutoff);
        if result.Failure? {
          return Failure(result.error), batches;
        }
        SweepStep(before, here, rows, cutoff, total, batches, result.value, batchSize);
        total := Plus(total, result.value);
        batches := batches + [result.value];
        if result.value.eligible < batchSize || result.value.purged == 0 {
          done := true;
        }
      }
      return Success(total), batches;
    }
  }

  /** One batch: only due runs outside `excluded` disappear, every selected run is counted
      once, and a batch that was not full leaves only failures. */
  ghost predicate BatchDone(before: Rows, after: Rows, cutoff: int, excluded: set<RunId>, batchSize: int, batch: Counts) {
    && Shrunk(before, after, cutoff, excluded)
    && batch.purged == |before| - |after|
    && batch.eligible == batch.purged + |batch.failed| <= batchSize
    && batch.failed <= DueRuns(after, cutoff) - excluded
    && (batch.eligible < batchSize ==> DueRuns(after, cutoff) - excluded == batch.failed)
  }

  function Plus(total: Counts, batch: Counts): Counts {
    Counts(total.eligible + batch.eligible, total.purged + batch.purged, total.failed + batch.failed)
  }

  /** Between two batches of a sweep. */
  ghost predicate Steady(before: Rows, after: Rows, cutoff: int, total: Counts, batches: seq<Counts>, batchSize: int) {
    && InProgress(before, after, cutoff, total) && total == Sum(batches)
    && forall i :: 0 <= i < |batches| ==> GoesOn(batches[i], batchSize)
  }

  lemma FailuresAdd(due: set<RunId>, failed: set<RunId>, batch: Counts, batchSize: int)
    requires failed <= due && batch.failed <= due - failed
    requires batch.eligible < batchSize ==> due - failed == batch.failed
    ensures failed + batch.failed <= due && |failed + batch.failed| == |failed| + |batch.failed|
    ensures batch.eligible < batchSize ==> due == failed + batch.failed
  {
    DisjointSize(failed, batch.failed);
  }

  lemma FailuresAfter(here: Rows, after: Rows, cutoff: int, failed: set<RunId>, batch: Counts, batchSize: int)
    requires BatchDone(here, after, cutoff, failed, batchSize, batch) && failed <= DueRuns(here, cutoff)
    ensures failed + batch.failed <= DueRuns(after, cutoff) && |failed + batch.failed| == |failed| + |batch.failed|
    ensures batch.eligible < batchSize ==> DueRuns(after, cutoff) == failed + batch.failed
  {
    FailedStayDue(here, after, cutoff, failed);
    FailuresAdd(DueRuns(after, cutoff), failed, batch, batchSize);
  }

  lemma BatchAdds(before: Rows, here: Rows, after: Rows, cutoff: int, total: Counts, batch: Counts, batchSize: int)
    requires InProgress(before, here, cutoff, total) && BatchDone(here, after, cutoff, total.failed, batchSize, batch)
    ensures InProgress(before, after, cutoff, Plus(total, batch))
    ensures batch.eligible < batchSize ==> DueRuns(after, cutoff) == Plus(total, batch).failed
  {
    ShrinksFurther(before, here, after, cutoff, total.failed);
    FailuresAfter(here, after, cutoff, total.failed, batch, batchSize);
  }

  lemma ListStep(batches: seq<Counts>, batch: Counts, batchSize: int)
    requires forall i :: 0 <= i < |batches| ==> GoesOn(batches[i], batchSize)
    ensures var longer := batches + [batch];
      && Sum(longer) == Plus(Sum(batches), batch)
      && (forall i :: 0 <= i < |longer| - 1 ==> GoesOn(longer[i], batchSize))
      && (GoesOn(batch, batchSize) ==> forall i :: 0 <= i < |longer| ==> GoesOn(longer[i], batchSize))
  {
    assert (batches + [batch])[..|batches|] == batches;
  }

  lemma SweepStep(before: Rows, here: Rows, after: Rows, cutoff: int, total: Counts, batches: seq<Counts>, batch: Counts, batchSize: int)
    requires Steady(before, here, cutoff, total, batches, batchSize)
    requires BatchDone(here, after, cutoff, total.failed, batchSize, batch)
    ensures |after| + batch.purged == |here|
    ensures if GoesOn(batch, batchSize)
            then Steady(before, after, cutoff, Plus(total, batch), batches + [batch], batchSize)
            else Drained(before, after, cutoff, Plus(total, batch), batches + [batch], batchSize)
  {
    BatchAdds(before, here, after, cutoff, total, batch, batchSize);
    ListStep(batches, batch, batchSize);
  }

  /** The totals over some batches. */
  ghost function Sum(batches: seq<Counts>): Counts {
    if batches == [] then Counts(0, 0, {})
    else
      var front, last := Sum(batches[..|batches| - 1]), batches[|batches| - 1];
      Plus(front, last)
  }

  /** A full batch that purged something is followed by another. */
  ghost predicate GoesOn(batch: Counts, batchSize: int) {
    batch.eligible == batchSize && batch.purged > 0
  }

  lemma DeletedIsCleared(before: World, after: World, bucket: string, cutoff: int, id: RunId, key: Key)
    requires id in before.rows && Overdue(before.rows[id], cutoff) && NamesKey(before.rows[id].metadata, bucket, key)
    requires after.rows == before.rows && (after.objects == before.objects || after.objects == before.objects - {key})
    ensures Cleared(before, after, bucket, cutoff)
  {
  }

  /** A row goes, and nothing that its metadata names is left. */
  lemma GoneIsCleared(before: World, after: World, bucket: string, cutoff: int, id: RunId)
    requires id in before.rows && Overdue(before.rows[id], cutoff)
    requires after.rows == before.rows || after.rows == before.rows - {id}
    requires after.objects <= before.objects
    requires forall key | key in before.objects && key !in after.objects :: NamesKey(before.rows[id].metadata, bucket, key)
    requires after.rows != before.rows ==> forall key | NamesKey(before.rows[id].metadata, bucket, key) :: key !in after.objects
    ensures Cleared(before, after, bucket, cutoff)
  {
  }

  /** The totals count the rows removed and the runs that failed, each run once. */
  ghost predicate InProgress(before: Rows, after: Rows, cutoff: int, total: Counts) {
    && Shrunk(before, after, cutoff, {})
    && total.purged == |before| - |after|
    && total.eligible == total.purged + |total.failed|
    && total.failed <= DueRuns(after, cutoff)
  }

  /** Every batch but the last was full and purged something, and the last was not like
      that. A last batch that was not full leaves only failed runs due; a full one failed
      on every run it selected. */
  ghost predicate Drained(before: Rows, after: Rows, cutoff: int, total: Counts, batches: seq<Counts>, batchSize: int) {
    && InProgress(before, after, cutoff, total)
    && batches != [] && total == Sum(batches)
    && (forall i :: 0 <= i < |batches| - 1 ==> GoesOn(batches[i], batchSize))
    && var last := batches[|batches| - 1];
       if last.eligible < batchSize then DueRuns(after, cutoff) == total.failed
       else last.purged == 0 && |last.failed| == batchSize
  }

  /** Rows only disappear, and only due ones outside `excluded`. */
  ghost predicate Shrunk(before: Rows, after: Rows, cutoff: int, excluded: set<RunId>) {
    && after.Keys <= before.Keys
    && (forall id | id in after :: after[id] == before[id])
    && before.Keys - after.Keys <= DueRuns(before, cutoff) - excluded
  }

  /** At most `limit` due runs outside `excluded`, each once; all of them if fewer. */
  ghost predicate Selection(selected: seq<RunId>, rows: Rows, cutoff: int, excluded: set<RunId>, limit: nat) {
    && Distinct(selected) && |selected| <= limit
    && (forall id :: id in selected ==> id in DueRuns(rows, cutoff) - excluded)
    && (|selected| < limit ==> forall id :: id in DueRuns(rows, cutoff) - excluded ==> id in selected)
  }

  lemma WithoutOneMore(rows: Rows, gone: set<RunId>, id: RunId)
    ensures rows - (gone + {id}) == (rows - gone) - {id}
  {
  }

  lemma StillDue(before: Rows, cutoff: int, excluded: set<RunId>, limit: nat, selected: seq<RunId>, i: nat, gone: set<RunId>)
    requires Selection(selected, before, cutoff, excluded, limit) && i < |selected| && selected[i] !in gone
    ensures selected[i] in DueRuns(before - gone, cutoff)
  {
    assert selected[i] in selected;
    assert selected[i] in before - gone && (before - gone)[selected[i]] == before[selected[i]];
  }

  /** The first i selected runs are divided into those removed and those that failed. */
  ghost predicate Sorted(selected: seq<RunId>, i: nat, gone: set<RunId>, failed: set<RunId>) {
    && i <= |selected| && gone !! failed && |gone| + |failed| == i
    && forall id :: id in selected[..i] <==> id in gone || id in failed
  }

  lemma NotYetSorted(selected: seq<RunId>, i: nat, gone: set<RunId>, failed: set<RunId>)
    requires Sorted(selected, i, gone, failed) && i < |selected| && Distinct(selected)
    ensures selected[i] !in gone && selected[i] !in failed
    ensures Sorted(selected, i + 1, gone + {selected[i]}, failed)
    ensures Sorted(selected, i + 1, gone, failed + {selected[i]})
  {
    var id := selected[i];
    assert selected[..i + 1] == selected[..i] + [id];
    assert id !in selected[..i];
  }

  /** Removing a row whose object is gone orphans nothing. */
  lemma StillOwned(first: World, before: World, after: World, bucket: string, id: RunId)
    requires NoOrphans(first, before, bucket) && id in before.rows
    requires after == World(before.objects, before.rows - {id})
    requires forall key :: OwnsObject(before.rows[id], bucket, key) ==> key !in before.objects
    ensures NoOrphans(first, after, bucket)
  {
    forall key | key in after.objects && Owned(first.rows, bucket, key) ensures Owned(after.rows, bucket, key) {
      var owner :| owner in before.rows && OwnsObject(before.rows[owner], bucket, key);
      assert owner in after.rows && OwnsObject(after.rows[owner], bucket, key);
    }
  }

  lemma DisjointSize<T>(a: set<T>, b: set<T>)
    requires a !! b
    ensures |a + b| == |a| + |b|
  {
  }

  /** The due runs are those that are left and those a batch removed. */
  lemma DueSplits(here: Rows, after: Rows, cutoff: int)
    requires after.Keys <= here.Keys && forall id | id in after :: after[id] == here[id]
    requires here.Keys - after.Keys <= DueRuns(here, cutoff)
    ensures DueRuns(here, cutoff) == DueRuns(after, cutoff) + (here.Keys - after.Keys)
    ensures DueRuns(after, cutoff) !! here.Keys - after.Keys
  {
    forall id ensures id in DueRuns(here, cutoff) <==> id in DueRuns(after, cutoff) || id in here.Keys - after.Keys {
    }
  }

  /** What a batch that went through all selected runs has done. */
  lemma BatchOutcome(before: Rows, after: Rows, cutoff: int, excluded: set<RunId>, limit: nat,
                     selected: seq<RunId>, gone: set<RunId>, failed: set<RunId>)
    requires Selection(selected, before, cutoff, excluded, limit)
    requires Sorted(selected, |selected|, gone, failed) && after == before - gone
    ensures Shrunk(before, after, cutoff, excluded) && before.Keys - after.Keys == gone
    ensures failed <= DueRuns(after, cutoff) - excluded
    ensures |selected| < limit ==> DueRuns(after, cutoff) - excluded == failed
  {
    assert selected[..|selected|] == selected;
    assert gone <= before.Keys;
    assert before.Keys - after.Keys == gone;
    DueSplits(before, after, cutoff);
  }

  lemma FailedStayDue(here: Rows, after: Rows, cutoff: int, failed: set<RunId>)
    requires Shrunk(here, after, cutoff, failed) && failed <= DueRuns(here, cutoff)
    ensures failed <= DueRuns(after, cutoff)
  {
    DueSplits(here, after, cutoff);
  }

  /** One batch after another. */
  lemma ShrinksFurther(before: Rows, here: Rows, after: Rows, cutoff: int, excluded: set<RunId>)
    requires Shrunk(before, here, cutoff, {}) && Shrunk(here, after, cutoff, excluded)
    ensures Shrunk(before, after, cutoff, {})
  {
    forall id | id in before.Keys - after.Keys ensures id in DueRuns(before, cutoff) {
      if id in here {
        assert id in here.Keys - after.Keys;
        assert here[id] == before[id];
      } else {
        assert id in before.Keys - here.Keys;
      }
    }
  }

  /** Rows that only disappear become fewer by those that are gone. */
  lemma FewerRows(before: Rows, after: Rows, gone: set<RunId>)
    requires after.Keys <= before.Keys && before.Keys - after.Keys == gone
    ensures |gone| == |before| - |after|
  {
    assert before.Keys == after.Keys + gone;
    DisjointSize(after.Keys, gone);
  }
}
