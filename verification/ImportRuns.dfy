/** The import worker: batches a source, stages every batch, and applies the
    disappearance policy of a complete snapshot. */
module ImportRuns {
  import opened Wrappers
  import opened Batching
  import opened Staging

  const MAX_IMPORT_FEATURES: nat := 5000

  // ------------------------------------------------ the catalogue

  datatype Status = CANDIDATE | APPROVED | REJECTED | RETIRED

  datatype SourceState = CurrentSource | StaleSource | RetiredSource | ReviewSource

  datatype Policy = UnchangedPolicy | StalePolicy | RetiredPolicy | ReviewPolicy

  datatype Origin = Origin(programme: string, adapter: string, sourceKey: string)

  datatype Entity = Entity(
    origin: Origin,
    sourceRef: Option<string>,
    sourceState: SourceState,
    status: Status,
    history: seq<(Policy, Status)>)

  predicate Vanished(e: Entity, origin: Origin, seen: set<string>, policy: Policy) {
    && e.origin == origin
    && e.sourceRef.Some? && e.sourceRef.value !in seen
    && !policy.UnchangedPolicy?
  }

  function MarkVanished(e: Entity, policy: Policy): Entity {
    e.(sourceState := (match policy case StalePolicy => StaleSource case ReviewPolicy => ReviewSource case _ => RetiredSource),
       status := if policy.RetiredPolicy? then RETIRED else e.status,
       history := e.history + [(policy, e.status)])
  }

  function AfterDisappearance(items: map<Id, Entity>, origin: Origin, seen: set<string>, policy: Policy): map<Id, Entity> {
    map id | id in items :: if Vanished(items[id], origin, seen, policy) then MarkVanished(items[id], policy) else items[id]
  }

  /** Whether the source no longer mentions the entity, so that the policy applies to it. */
  ghost predicate Missed(e: Entity, origin: Origin, seen: set<string>) {
    && e.origin.programme == origin.programme && e.origin.adapter == origin.adapter && e.origin.sourceKey == origin.sourceKey
    && exists r :: e.sourceRef == Some(r) && r !in seen
  }

  /** What a disappearance check makes of one entity, column by column. */
  ghost predicate Judged(before: Entity, after: Entity, origin: Origin, seen: set<string>, policy: Policy) {
    if policy == UnchangedPolicy || !Missed(before, origin, seen) then after == before
    else
      && after.origin == before.origin && after.sourceRef == before.sourceRef
      && (policy == StalePolicy ==> after.sourceState == StaleSource)
      && (policy == ReviewPolicy ==> after.sourceState == ReviewSource)
      && (policy == RetiredPolicy ==> after.sourceState == RetiredSource)
      && (policy == RetiredPolicy ==> after.status == RETIRED)
      && (policy != RetiredPolicy ==> after.status == before.status)
      && |after.history| == |before.history| + 1
      && after.history[..|before.history|] == before.history
      && after.history[|before.history|] == (policy, before.status)
  }

  /** The catalogue after a check, and the entities it reports. */
  ghost predicate AllJudged(before: map<Id, Entity>, after: map<Id, Entity>, origin: Origin, seen: set<string>, policy: Policy) {
    after.Keys == before.Keys && forall id | id in before :: Judged(before[id], after[id], origin, seen, policy)
  }

  ghost predicate ReportsMissed(before: map<Id, Entity>, reported: set<Id>, origin: Origin, seen: set<string>, policy: Policy) {
    forall id :: id in reported <==> id in before && policy != UnchangedPolicy && Missed(before[id], origin, seen)
  }

  lemma MarkedIsJudged(e: Entity, origin: Origin, seen: set<string>, policy: Policy)
    ensures Vanished(e, origin, seen, policy) <==> policy != UnchangedPolicy && Missed(e, origin, seen)
    ensures Judged(e, if Vanished(e, origin, seen, policy) then MarkVanished(e, policy) else e, origin, seen, policy)
  {
    if e.sourceRef.Some? {
      assert e.sourceRef == Some(e.sourceRef.value);
    }
  }

  lemma DisappearanceJudges(items: map<Id, Entity>, origin: Origin, seen: set<string>, policy: Policy)
    ensures AllJudged(items, AfterDisappearance(items, origin, seen, policy), origin, seen, policy)
    ensures ReportsMissed(items, (set id | id in items && Vanished(items[id], origin, seen, policy)), origin, seen, policy)
  {
    forall id | id in items ensures Judged(items[id], AfterDisappearance(items, origin, seen, policy)[id], origin, seen, policy)
      ensures Vanished(items[id], origin, seen, policy) <==> policy != UnchangedPolicy && Missed(items[id], origin, seen)
    {
      MarkedIsJudged(items[id], origin, seen, policy);
    }
  }

  /** The references of the staged features in a range of ordinals. */
  ghost function SeenRefs(outcome: Outcomes, lo: nat, hi: nat): set<string> {
    RefsOf(Entries(outcome, lo, hi))
  }

  // ------------------------------------------------ the worker

  datatype Job = Job(run: Id, origin: Origin, policy: Policy, completeSnapshot: bool)

  function OutcomeAt(features: seq<Feature>, prepare: (Feature, nat) -> Outcome): Outcomes {
    (o: nat) => if o < |features| then prepare(features[o], o) else Reject("")
  }

  /** The map from ordinals to the candidates of a range. */
  ghost predicate IsWindow(previous: map<nat, Id>, s: Candidates, run: Id, start: nat, end: nat) {
    && (forall o | o in previous :: start <= o < end && Has(s, run, o, previous[o]))
    && (forall o, id | start <= o < end && Has(s, run, o, id) :: o in previous && previous[o] == id)
  }

  datatype ImportError = TooManyFeatures

  function RefsOf(records: seq<Entry>): set<string> {
    set entry | entry in records :: entry.sourceRef
  }

  /** What a range of ordinals reports: the candidates, the manifest entries, the skipped
      and the failed features. */
  datatype Report = Report(preprocessed: seq<Id>, records: seq<Entry>, skipped: seq<Skipped>, errors: seq<Failed>)

  const NOTHING := Report([], [], [], [])

  function Plus(a: Report, b: Report): Report {
    Report(a.preprocessed + b.preprocessed, a.records + b.records, a.skipped + b.skipped, a.errors + b.errors)
  }

  /** The ids are those of the candidates of the given ordinals, in order. */
  ghost predicate Named(s: Candidates, run: Id, ordinals: seq<nat>, ids: seq<Id>) {
    |ids| == |ordinals| && forall k :: 0 <= k < |ids| ==> Has(s, run, ordinals[k], ids[k])
  }

  ghost predicate Reports(s: Candidates, run: Id, outcome: Outcomes, lo: nat, hi: nat, r: Report) {
    && Named(s, run, Collect(OrdinalOf(outcome), lo, hi), r.preprocessed)
    && r.records == Entries(outcome, lo, hi)
    && r.skipped == Collect(SkippedOf(outcome), lo, hi)
    && r.errors == Collect(FailedOf(outcome), lo, hi)
  }

  /** The report of one feature. */
  ghost predicate ReportsOne(s: Candidates, run: Id, o: nat, outcome: Outcome, r: Report) {
    match outcome
    case Stage(c) =>
      && |r.preprocessed| == 1 && Has(s, run, o, r.preprocessed[0])
      && r == Report(r.preprocessed, [Entry(c.sourceRef, c.sourceHash)], [], [])
    case Skip(skipped) => r == Report([], [], [skipped], [])
    case Reject(message) => r == Report([], [], [], [Failed(o, message)])
  }

  /** A range of ordinals is staged and reported. */
  ghost predicate Done(s: Candidates, t: Candidates, run: Id, outcome: Outcomes, lo: nat, hi: nat, r: Report) {
    Staging.Staged(s, t, run, outcome, lo, hi) && Reports(t, run, outcome, lo, hi, r)
  }

  lemma DoneNothing(s: Candidates, run: Id, outcome: Outcomes, lo: nat)
    ensures Done(s, s, run, outcome, lo, lo, NOTHING)
  {
    StagedNothing(s, run, outcome, lo);
    ReportsNothing(s, run, outcome, lo);
  }

  lemma DoneChain(s: Candidates, t: Candidates, u: Candidates, run: Id, outcome: Outcomes, lo: nat, mid: nat, hi: nat, a: Report, b: Report)
    requires lo <= mid <= hi && Done(s, t, run, outcome, lo, mid, a) && Done(t, u, run, outcome, mid, hi, b)
    ensures Done(s, u, run, outcome, lo, hi, Plus(a, b))
  {
    StagedChain(s, t, u, run, outcome, lo, mid, mid, hi);
    ReportsJoin(t, u, run, outcome, lo, mid, hi, a, b);
  }

  lemma ReportsNothing(s: Candidates, run: Id, outcome: Outcomes, lo: nat)
    ensures Reports(s, run, outcome, lo, lo, NOTHING)
  {
  }

  lemma OneReports(s: Candidates, run: Id, outcome: Outcomes, o: nat, r: Report)
    requires ReportsOne(s, run, o, outcome(o), r)
    ensures Reports(s, run, outcome, o, o + 1, r)
  {
    CollectOne(OrdinalOf(outcome), o);
    CollectOne(EntryOf(outcome), o);
    CollectOne(SkippedOf(outcome), o);
    CollectOne(FailedOf(outcome), o);
  }

  lemma NamedStays(s: Candidates, t: Candidates, run: Id, outcome: Outcomes, lo: nat, hi: nat, ordinals: seq<nat>, ids: seq<Id>)
    requires Named(s, run, ordinals, ids) && Staging.Staged(s, t, run, outcome, lo, hi)
    ensures Named(t, run, ordinals, ids)
  {
    forall k | 0 <= k < |ids| ensures Has(t, run, ordinals[k], ids[k]) {
      assert Has(s, run, ordinals[k], ids[k]);
      assert KeptOrReplayed(s, t, run, outcome, lo, hi, ids[k]);
    }
  }

  lemma ReportsJoin(s: Candidates, t: Candidates, run: Id, outcome: Outcomes, lo: nat, mid: nat, hi: nat, a: Report, b: Report)
    requires lo <= mid <= hi && Staging.Staged(s, t, run, outcome, mid, hi)
    requires Reports(s, run, outcome, lo, mid, a) && Reports(t, run, outcome, mid, hi, b)
    ensures Reports(t, run, outcome, lo, hi, Plus(a, b))
  {
    NamedStays(s, t, run, outcome, mid, hi, Collect(OrdinalOf(outcome), lo, mid), a.preprocessed);
    CollectJoin(OrdinalOf(outcome), lo, mid, hi);
    CollectJoin(EntryOf(outcome), lo, mid, hi);
    CollectJoin(SkippedOf(outcome), lo, mid, hi);
    CollectJoin(FailedOf(outcome), lo, mid, hi);
  }

  /** Where the last batch of a source starts. */
  function LastBatchStart(features: seq<Feature>, size: Feature -> Size, l: Limits): nat {
    LastStart(GreedySplit(features, size, l))
  }

  function LastStart<T>(batches: seq<seq<T>>): nat {
    if batches == [] then 0 else Features(batches[..|batches| - 1])
  }

  /** How many features a list of batches holds. */
  function Features<T>(batches: seq<seq<T>>): nat {
    if batches == [] then 0 else Features(batches[..|batches| - 1]) + |batches[|batches| - 1]|
  }

  /** The entities a run changed. */
  ghost function Changed(before: map<Id, Entity>, after: map<Id, Entity>): set<Id> {
    set id | id in before && id in after && after[id] != before[id]
  }

  /** The catalogue after a run: only a complete snapshot with features changes it, and
      what counts as seen is what the last batch staged. */
  ghost function AfterSnapshot(items: map<Id, Entity>, job: Job, outcome: Outcomes, last: nat, total: nat): map<Id, Entity> {
    if job.completeSnapshot && total > 0 then
      AfterDisappearance(items, job.origin, SeenRefs(outcome, last, total), job.policy)
    else items
  }

  /** What a refused source leaves: nothing for a snapshot, which is counted first, and
      else the batches before the limit. */
  ghost predicate StagedSome(s: Candidates, t: Candidates, job: Job, outcome: Outcomes, total: nat) {
    exists n: nat :: n <= total && (job.completeSnapshot ==> n == 0) && Staging.Staged(s, t, job.run, outcome, 0, n)
  }

  /** The candidates, the catalogue and the report after the first i batches. */
  ghost predicate Reached(before: Candidates, catalogue: map<Id, Entity>, s: Candidates, items: map<Id, Entity>,
                          job: Job, outcome: Outcomes, batches: seq<seq<Feature>>, i: nat, report: Report)
    requires i <= |batches|
  {
    && Done(before, s, job.run, outcome, 0, Offset(batches, i), report)
    && items == if i == |batches| then AfterSnapshot(catalogue, job, outcome, LastStart(batches), |Joined(batches)|) else catalogue
  }

  /** The catalogue after the batch of the ordinals from lo to hi. */
  ghost function AfterBatch(items: map<Id, Entity>, job: Job, outcome: Outcomes, lo: nat, hi: nat, total: nat): map<Id, Entity> {
    if job.completeSnapshot && hi == total then AfterDisappearance(items, job.origin, SeenRefs(outcome, lo, hi), job.policy)
    else items
  }

  ghost predicate StoppedEarly(before: Candidates, catalogue: map<Id, Entity>, s: Candidates, items: map<Id, Entity>,
                               job: Job, outcome: Outcomes, batches: seq<seq<Feature>>) {
    exists i, report :: 0 <= i < |batches| && Reached(before, catalogue, s, items, job, outcome, batches, i, report)
  }

  class ImportWorker {
    var candidates: Candidates
    var nextId: Id
    var items: map<Id, Entity>
    var manifests: map<Id, seq<Entry>>

    ghost predicate Valid()
      reads this
    {
      OnePerOrdinal(candidates) && forall id | id in candidates :: id < nextId
    }

    constructor ()
      ensures Valid() && candidates == map[] && items == map[] && manifests == map[]
    {
      candidates, nextId, items, manifests := map[], 0, map[], map[];
    }

    /** The candidates of one batch's window, by ordinal. */
    method CandidatesForOrdinals(run: Id, start: nat, end: nat) returns (previous: map<nat, Id>)
      requires Valid()
      ensures IsWindow(previous, candidates, run, start, end)
    {
      previous := map[];
      var rest := candidates.Keys;
      while rest != {}
        invariant rest <= candidates.Keys
        invariant forall o | o in previous :: start <= o < end && Has(candidates, run, o, previous[o])
        invariant forall o, id | start <= o < end && id !in rest && Has(candidates, run, o, id) :: o in previous && previous[o] == id
        decreases rest
      {
        var id :| id in rest;
        var c := candidates[id];
        if c.run == run && start <= c.ordinal < end {
          previous := previous[c.ordinal := id];
        }
        rest := rest - {id};
      }
    }

    method StageImportCandidate(id: Id, c: Candidate)
      modifies this`candidates
      ensures candidates == old(candidates)[id := c]
    {
      candidates := candidates[id := c];
    }

    /** Stages one normalized feature over the candidate found for its ordinal, if any. */
    method StageFeature(run: Id, o: nat, content: Content, previous: Option<Id>, ghost outcome: Outcomes) returns (id: Id)
      requires Valid() && outcome(o) == Stage(content)
      requires if previous.Some? then Has(candidates, run, o, previous.value) else !Occupied(candidates, run, o)
      modifies this`candidates, this`nextId
      ensures Valid() && Staging.Staged(old(candidates), candidates, run, outcome, o, o + 1)
      ensures Has(candidates, run, o, id)
    {
      ghost var before := candidates;
      var c := Candidate(run, o, content, PENDING, None);
      id := if previous.Some? then previous.value else nextId;
      if previous.Some? {
        StageImportCandidate(id, c.(review := candidates[id].review));
        ReplayOne(before, candidates, run, outcome, o, id);
      } else {
        StageImportCandidate(id, c);
        StageOne(before, candidates, run, outcome, o, id);
        nextId := nextId + 1;
      }
    }

    /** What one feature of a batch does, given the window looked up before the batch. */
    method ImportFeature(run: Id, o: nat, result: Outcome, previous: map<nat, Id>,
                         ghost before: Candidates, ghost lo: nat, ghost end: nat, ghost outcome: Outcomes)
      returns (report: Report)
      requires Valid() && lo <= o < end && result == outcome(o)
      requires IsWindow(previous, before, run, lo, end) && Staging.Staged(before, candidates, run, outcome, lo, o)
      modifies this`candidates, this`nextId
      ensures Valid() && Done(old(candidates), candidates, run, outcome, o, o + 1, report)
    {
      ghost var here := candidates;
      match result {
        case Stage(content) =>
          var found := if o in previous then Some(previous[o]) else None;
          WindowAnswers(before, here, run, outcome, lo, end, o, previous);
          var id := StageFeature(run, o, content, found, outcome);
          report := Report([id], [Entry(content.sourceRef, content.sourceHash)], [], []);
        case Skip(skipped) =>
          SkipOne(here, run, outcome, o);
          report := Report([], [], [skipped], []);
        case Reject(message) =>
          SkipOne(here, run, outcome, o);
          report := Report([], [], [], [Failed(o, message)]);
      }
      OneReports(candidates, run, outcome, o, report);
    }

    /** One batch: the features of `batch` are the source's ordinals from `offset` on. */
    method ImportFeatures(run: Id, batch: seq<Feature>, offset: nat, prepare: (Feature, nat) -> Outcome, ghost outcome: Outcomes)
      returns (report: Report)
      requires Valid() && Agrees(batch, offset, prepare, outcome)
      modifies this`candidates, this`nextId
      ensures Valid() && Done(old(candidates), candidates, run, outcome, offset, offset + |batch|, report)
    {
      var end := offset + |batch|;
      var previous := CandidatesForOrdinals(run, offset, end);
      ghost var before := candidates;
      report := NOTHING;
      DoneNothing(before, run, outcome, offset);
      for o := offset to end
        invariant Valid()
        invariant Done(before, candidates, run, outcome, offset, o, report)
      {
        assert outcome(offset + (o - offset)) == prepare(batch[o - offset], o);
        ghost var here := candidates;
        var more := ImportFeature(run, o, prepare(batch[o - offset], o), previous, before, offset, end, outcome);
        DoneChain(before, here, candidates, run, outcome, offset, o, o + 1, report, more);
        report := Plus(report, more);
      }
    }

    /** Applies the policy to the catalogue entities whose reference was not seen. */
    method ApplyDisappearance(origin: Origin, seen: set<string>, policy: Policy) returns (changed: set<Id>)
      modifies this`items
      ensures items == AfterDisappearance(old(items), origin, seen, policy)
      ensures changed == set id | id in old(items) && Vanished(old(items)[id], origin, seen, policy)
      ensures AllJudged(old(items), items, origin, seen, policy) && ReportsMissed(old(items), changed, origin, seen, policy)
    {
      DisappearanceJudges(items, origin, seen, policy);
      changed := MarkMissing(origin, seen, policy);
    }

    /** The walk over the catalogue. */
    method MarkMissing(origin: Origin, seen: set<string>, policy: Policy) returns (changed: set<Id>)
      modifies this`items
      ensures items == AfterDisappearance(old(items), origin, seen, policy)
      ensures changed == set id | id in old(items) && Vanished(old(items)[id], origin, seen, policy)
    {
      changed := {};
      var rest := items.Keys;
      ghost var before := items;
      while rest != {}
        invariant rest <= before.Keys && items.Keys == before.Keys
        invariant forall id | id in items ::
          items[id] == (if id !in rest && Vanished(before[id], origin, seen, policy) then MarkVanished(before[id], policy) else before[id])
        invariant changed == set id | id in before && id !in rest && Vanished(before[id], origin, seen, policy)
        decreases rest
      {
        var id :| id in rest;
        if Vanished(items[id], origin, seen, policy) {
          items := items[id := MarkVanished(items[id], policy)];
          changed := changed + {id};
        }
        rest := rest - {id};
      }
    }

    /** The disappearance check, made only after the last batch of a complete snapshot. */
    method CheckDisappearance(job: Job, last: bool, records: seq<Entry>) returns (disappeared: set<Id>)
      modifies this`items
      ensures items == if job.completeSnapshot && last
                       then AfterDisappearance(old(items), job.origin, RefsOf(records), job.policy) else old(items)
      ensures disappeared == Changed(old(items), items)
    {
      disappeared := {};
      ghost var before := items;
      if job.completeSnapshot && last {
        disappeared := ApplyDisappearance(job.origin, RefsOf(records), job.policy);
        ChangedHaveVanished(before, job.origin, RefsOf(records), job.policy);
      }
    }

    /** One batch of a run, and the disappearance check when it is the last one. */
    method ProcessBatch(job: Job, batch: seq<Feature>, from: nat, total: nat, prepare: (Feature, nat) -> Outcome,
                        ghost outcome: Outcomes)
      returns (report: Report, disappeared: set<Id>)
      requires Valid() && Agrees(batch, from, prepare, outcome)
      modifies this`candidates, this`nextId, this`items
      ensures Valid() && Done(old(candidates), candidates, job.run, outcome, from, from + |batch|, report)
      ensures items == AfterBatch(old(items), job, outcome, from, from + |batch|, total)
      ensures disappeared == Changed(old(items), items)
    {
      report := ImportFeatures(job.run, batch, from, prepare, outcome);
      disappeared := CheckDisappearance(job, from + |batch| == total, report.records);
    }

    /** The next batch of a run within the feature limit. */
    method NextBatch(job: Job, features: seq<Feature>, batches: seq<seq<Feature>>, i: nat, prepare: (Feature, nat) -> Outcome,
                     from: nat, report: Report, ghost before: Candidates, ghost catalogue: map<Id, Entity>)
      returns (longer: Report, disappeared: set<Id>)
      requires Valid() && Joined(batches) == features && NoneEmpty(batches) && i < |batches| && from == Offset(batches, i)
      requires Reached(before, catalogue, candidates, items, job, OutcomeAt(features, prepare), batches, i, report)
      modifies this`candidates, this`nextId, this`items
      ensures Valid()
      ensures Reached(before, catalogue, candidates, items, job, OutcomeAt(features, prepare), batches, i + 1, longer)
      ensures Changed(catalogue, old(items)) + disappeared == Changed(catalogue, items)
    {
      ghost var outcome, here, there := OutcomeAt(features, prepare), candidates, items;
      BatchIsSlice(batches, i);
      SliceAgrees(features, prepare, batches[i], from);
      var more;
      more, disappeared := ProcessBatch(job, batches[i], from, |features|, prepare, outcome);
      ReachedNext(before, catalogue, here, candidates, there, items, job, outcome, batches, i, report, more);
      longer := Plus(report, more);
    }

    /** Every batch is committed before the next is read; stops at the feature limit. */
    method ProcessBatches(job: Job, features: seq<Feature>, batches: seq<seq<Feature>>, prepare: (Feature, nat) -> Outcome)
      returns (r: Result<Report, ImportError>, disappeared: set<Id>)
      requires Valid() && Joined(batches) == features && NoneEmpty(batches)
      modifies this`candidates, this`nextId, this`items
      ensures Valid() && (r.Success? <==> |features| <= MAX_IMPORT_FEATURES)
      ensures r.Success? ==> Done(old(candidates), candidates, job.run, OutcomeAt(features, prepare), 0, |features|, r.value)
      ensures r.Success? ==> items == AfterSnapshot(old(items), job, OutcomeAt(features, prepare), LastStart(batches), |features|)
      ensures r.Success? ==> disappeared == Changed(old(items), items)
      ensures r.Failure? && !job.completeSnapshot ==>
        items == old(items) && StagedSome(old(candidates), candidates, job, OutcomeAt(features, prepare), |features|)
    {
      ghost var outcome, before, catalogue := OutcomeAt(features, prepare), candidates, items;
      var count := 0;
      var report := NOTHING;
      disappeared := {};
      ReachedStart(before, catalogue, job, outcome, batches);
      WholeOffset(batches);
      for i := 0 to |batches|
        invariant Valid()
        invariant count == Offset(batches, i) <= MAX_IMPORT_FEATURES
        invariant Reached(before, catalogue, candidates, items, job, outcome, batches, i, report)
        invariant disappeared == Changed(catalogue, items)
      {
        BatchIsSlice(batches, i);
        var from := count;
        count := count + |batches[i]|;
        if count > MAX_IMPORT_FEATURES {
          assert StoppedEarly(before, catalogue, candidates, items, job, outcome, batches);
          if !job.completeSnapshot {
            StoppedIsSome(before, catalogue, candidates, items, job, outcome, batches);
          }
          return Failure(TooManyFeatures), disappeared;
        }
        var gone;
        report, gone := NextBatch(job, features, batches, i, prepare, from, report, before, catalogue);
        disappeared := disappeared + gone;
      }
      ReachedEnd(before, catalogue, candidates, items, job, outcome, batches, report);
      r := Success(report);
    }

    /** One attempt at a run. */
    method ProcessImportRun(job: Job, features: seq<Feature>, size: Feature -> Size, l: Limits, prepare: (Feature, nat) -> Outcome)
      returns (r: Result<Summary, ImportError>)
      requires Valid()
      modifies this
      ensures Valid()
      ensures r.Success? <==> |features| <= 5000
      ensures r.Success? ==>
        var outcome := OutcomeAt(features, prepare);
        && Done(old(candidates), candidates, job.run, outcome, 0, |features|, r.value.report)
        && manifests == old(manifests)[job.run := r.value.report.records]
        && items == AfterSnapshot(old(items), job, outcome, LastBatchStart(features, size, l), |features|)
        && r.value.disappeared == Changed(old(items), items)
      ensures r.Success? && (!job.completeSnapshot || features == []) ==> items == old(items) && r.value.disappeared == {}
      ensures r.Success? && job.completeSnapshot && features != [] ==>
        exists seen ::
          && IsSeen(seen, OutcomeAt(features, prepare), LastBatchStart(features, size, l), |features|)
          && AllJudged(old(items), items, job.origin, seen, job.policy)
          && ReportsMissed(old(items), r.value.disappeared, job.origin, seen, job.policy)
      ensures r.Failure? ==> items == old(items) && manifests == old(manifests)
      ensures r.Failure? ==> StagedSome(old(candidates), candidates, job, OutcomeAt(features, prepare), |features|)
    {
      if job.completeSnapshot && |features| > MAX_IMPORT_FEATURES {
        StagedNothing(candidates, job.run, OutcomeAt(features, prepare), 0);
        return Failure(TooManyFeatures);
      }
      var batches := BoundedImportBatches(features, size, l);
      var report, disappeared := ProcessBatches(job, features, batches, prepare);
      if report.Failure? {
        return Failure(report.error);
      }
      SnapshotJudges(old(items), job, OutcomeAt(features, prepare), LastBatchStart(features, size, l), |features|);
      manifests := manifests[job.run := report.value.records];
      return Success(Summary(report.value, disappeared));
    }
  }

  /** What a completed attempt returns. */
  datatype Summary = Summary(report: Report, disappeared: set<Id>)

  /** The batch is the part of the source that the outcomes describe. */
  ghost predicate Agrees(batch: seq<Feature>, offset: nat, prepare: (Feature, nat) -> Outcome, outcome: Outcomes) {
    forall i :: 0 <= i < |batch| ==> outcome(offset + i) == prepare(batch[i], offset + i)
  }

  /** The window looked up before the batch still answers for an ordinal not yet reached. */
  lemma WindowAnswers(s: Candidates, t: Candidates, run: Id, outcome: Outcomes, lo: nat, end: nat, o: nat, previous: map<nat, Id>)
    requires Staging.Staged(s, t, run, outcome, lo, o) && lo <= o < end
    requires IsWindow(previous, s, run, lo, end)
    ensures o in previous ==> Has(t, run, o, previous[o])
    ensures o !in previous ==> !Occupied(t, run, o)
  {
    if o in previous {
      assert Has(s, run, o, previous[o]);
      assert KeptOrReplayed(s, t, run, outcome, lo, o, previous[o]);
    } else {
      forall id ensures !Has(s, run, o, id) {
      }
      NotYetStaged(s, t, run, outcome, lo, o);
    }
  }

  lemma ReplayOne(s: Candidates, t: Candidates, run: Id, outcome: Outcomes, o: nat, id: Id)
    requires OnePerOrdinal(s) && Has(s, run, o, id) && outcome(o).Stage?
    requires t == s[id := Replayed(s[id], outcome(o).content)]
    ensures Staging.Staged(s, t, run, outcome, o, o + 1)
  {
    assert Has(t, run, o, id);
  }

  lemma StageOne(s: Candidates, t: Candidates, run: Id, outcome: Outcomes, o: nat, id: Id)
    requires id !in s && !Occupied(s, run, o) && outcome(o).Stage?
    requires t == s[id := Candidate(run, o, outcome(o).content, PENDING, None)]
    ensures Staging.Staged(s, t, run, outcome, o, o + 1)
  {
    assert Has(t, run, o, id);
    forall x | x in s ensures KeptOrReplayed(s, t, run, outcome, o, o + 1, x) {
      assert !Has(s, run, o, x);
    }
    if OnePerOrdinal(s) {
      forall x, y | x in t && y in t && t[x].run == t[y].run && t[x].ordinal == t[y].ordinal ensures x == y {
        assert x in s ==> !Has(s, run, o, x);
        assert y in s ==> !Has(s, run, o, y);
      }
    }
  }

  lemma SkipOne(s: Candidates, run: Id, outcome: Outcomes, o: nat)
    requires !outcome(o).Stage?
    ensures Staging.Staged(s, s, run, outcome, o, o + 1)
  {
  }

  /** An ordinal outside the window's map is not staged by the earlier features either. */
  lemma NotYetStaged(s: Candidates, t: Candidates, run: Id, outcome: Outcomes, lo: nat, o: nat)
    requires Staging.Staged(s, t, run, outcome, lo, o) && !Occupied(s, run, o)
    ensures !Occupied(t, run, o)
  {
    forall id ensures !Has(t, run, o, id) {
      if id in s {
        assert KeptOrReplayed(s, t, run, outcome, lo, o, id);
        assert !Has(s, run, o, id);
      } else if id in t {
        assert NewlyStaged(s, t[id], run, outcome, lo, o);
      }
    }
  }

  lemma SliceAgrees(features: seq<Feature>, prepare: (Feature, nat) -> Outcome, batch: seq<Feature>, from: nat)
    requires from + |batch| <= |features| && features[from..from + |batch|] == batch
    ensures Agrees(batch, from, prepare, OutcomeAt(features, prepare))
  {
    forall i | 0 <= i < |batch| ensures OutcomeAt(features, prepare)(from + i) == prepare(batch[i], from + i) {
      assert batch[i] == features[from..from + |batch|][i] == features[from + i];
    }
  }

  /** Only the last batch reaches the end of the source. */
  lemma LaterBatches<T>(batches: seq<seq<T>>, i: nat)
    requires i < |batches| && NoneEmpty(batches)
    ensures Offset(batches, i + 1) == |Joined(batches)| <==> i + 1 == |batches|
  {
    WholeOffset(batches);
    if i + 1 < |batches| {
      BatchIsSlice(batches, i + 1);
      assert batches[i + 1] != [];
    }
  }

  /** A run stopped by the limit, which a snapshot never is, leaves the batches before it. */
  lemma StoppedIsSome(before: Candidates, catalogue: map<Id, Entity>, s: Candidates, items: map<Id, Entity>,
                      job: Job, outcome: Outcomes, batches: seq<seq<Feature>>)
    requires StoppedEarly(before, catalogue, s, items, job, outcome, batches) && !job.completeSnapshot
    ensures items == catalogue && StagedSome(before, s, job, outcome, |Joined(batches)|)
  {
    var i: int, some: Report :| 0 <= i < |batches| && Reached(before, catalogue, s, items, job, outcome, batches, i, some);
    BatchIsSlice(batches, i);
  }

  /** Counting the features of the batches is measuring what they join to. */
  lemma {:induction false} FeaturesAreJoined<T>(batches: seq<seq<T>>)
    ensures Features(batches) == |Joined(batches)|
    decreases |batches|
  {
    if batches != [] {
      FeaturesAreJoined(batches[..|batches| - 1]);
    }
  }

  lemma LastStartIsOffset<T>(batches: seq<seq<T>>)
    requires batches != []
    ensures LastStart(batches) == Offset(batches, |batches| - 1)
  {
    FeaturesAreJoined(batches[..|batches| - 1]);
  }

  lemma ReachedStart(before: Candidates, catalogue: map<Id, Entity>, job: Job, outcome: Outcomes, batches: seq<seq<Feature>>)
    ensures Offset(batches, 0) == 0
    ensures Reached(before, catalogue, before, catalogue, job, outcome, batches, 0, NOTHING)
    ensures Changed(catalogue, catalogue) == {}
  {
    assert batches[..0] == [];
    DoneNothing(before, job.run, outcome, 0);
  }

  lemma ReachedEnd(before: Candidates, catalogue: map<Id, Entity>, s: Candidates, items: map<Id, Entity>,
                   job: Job, outcome: Outcomes, batches: seq<seq<Feature>>, report: Report)
    requires Reached(before, catalogue, s, items, job, outcome, batches, |batches|, report)
    ensures Done(before, s, job.run, outcome, 0, |Joined(batches)|, report)
    ensures report.records == Entries(outcome, 0, |Joined(batches)|)
    ensures items == AfterSnapshot(catalogue, job, outcome, LastStart(batches), |Joined(batches)|)
  {
    WholeOffset(batches);
  }

  lemma ReachedNext(before: Candidates, catalogue: map<Id, Entity>, s: Candidates, t: Candidates,
                    here: map<Id, Entity>, there: map<Id, Entity>, job: Job, outcome: Outcomes,
                    batches: seq<seq<Feature>>, i: nat, report: Report, more: Report)
    requires i < |batches| && NoneEmpty(batches) && Offset(batches, i) <= Offset(batches, i + 1)
    requires Reached(before, catalogue, s, here, job, outcome, batches, i, report)
    requires Done(s, t, job.run, outcome, Offset(batches, i), Offset(batches, i + 1), more)
    requires there == AfterBatch(here, job, outcome, Offset(batches, i), Offset(batches, i + 1), |Joined(batches)|)
    ensures Changed(catalogue, here) + Changed(here, there) == Changed(catalogue, there)
    ensures Reached(before, catalogue, t, there, job, outcome, batches, i + 1, Plus(report, more))
  {
    DoneChain(before, s, t, job.run, outcome, 0, Offset(batches, i), Offset(batches, i + 1), report, more);
    LaterBatches(batches, i);
    if i + 1 == |batches| {
      LastStartIsOffset(batches);
      BatchIsSlice(batches, i);
      assert batches[i] != [];
    }
  }

  // ------------------------------------------------ what disappearance gets right

  /** The check changes an entity exactly when it belongs to the source, has a reference,
      and that reference was not seen. */
  lemma MarkedExactly(items: map<Id, Entity>, origin: Origin, seen: set<string>, policy: Policy, id: Id)
    requires id in items
    ensures AfterDisappearance(items, origin, seen, policy)[id] != items[id] <==> Vanished(items[id], origin, seen, policy)
  {
    if Vanished(items[id], origin, seen, policy) {
      assert |MarkVanished(items[id], policy).history| == |items[id].history| + 1;
    }
  }

  lemma ChangedHaveVanished(items: map<Id, Entity>, origin: Origin, seen: set<string>, policy: Policy)
    ensures Changed(items, AfterDisappearance(items, origin, seen, policy)) ==
            set id | id in items && Vanished(items[id], origin, seen, policy)
  {
    forall id | id in items
      ensures AfterDisappearance(items, origin, seen, policy)[id] != items[id] <==> Vanished(items[id], origin, seen, policy)
    {
      MarkedExactly(items, origin, seen, policy, id);
    }
  }

  /** The refs of the last batch are among those of the whole source. */
  lemma LastRefsAreSeen(outcome: Outcomes, last: nat, total: nat)
    requires last <= total
    ensures SeenRefs(outcome, last, total) <= SeenRefs(outcome, 0, total)
  {
    CollectJoin(EntryOf(outcome), 0, last, total);
  }

  lemma LastStartInSource(features: seq<Feature>, size: Feature -> Size, l: Limits)
    ensures LastBatchStart(features, size, l) <= |features|
    ensures features != [] ==> LastBatchStart(features, size, l) < |features|
    ensures LastBatchStart(features, size, l) == 0 <==> Obeys(features, size, l)
  {
    var split := GreedySplit(features, size, l);
    SplitIsGreedy(features, size, l);
    OneBatchIff(features, size, l);
    if split != [] {
      LastStartIsOffset(split);
      BatchIsSlice(split, |split| - 1);
      assert split[|split| - 1] != [];
      WholeOffset(split);
      assert split[..0] == [];
      if |split| > 1 {
        BatchIsSlice(split, 0);
        BatchesAdvance(split, 1, |split| - 1);
        assert split[0] != [];
      }
    }
  }

  lemma {:induction false} BatchesAdvance<T>(batches: seq<seq<T>>, i: nat, j: nat)
    requires i <= j <= |batches|
    ensures Offset(batches, i) <= Offset(batches, j)
    decreases j
  {
    if i < j {
      BatchesAdvance(batches, i, j - 1);
      BatchIsSlice(batches, j - 1);
    }
  }

  /** What a run that gets through leaves of any catalogue is what a look at the whole
      snapshot would leave. */
  ghost predicate JudgedAsAWhole(job: Job, outcome: Outcomes, last: nat, total: nat) {
    forall items :: AfterSnapshot(items, job, outcome, last, total) == AfterSnapshot(items, job, outcome, 0, total)
  }

  /** Disappearance is judged by the whole snapshot, for every catalogue, exactly when
      the last batch staged every reference that the snapshot staged. */
  lemma DisappearanceIsRightIff(job: Job, features: seq<Feature>, size: Feature -> Size, l: Limits, prepare: (Feature, nat) -> Outcome)
    ensures var outcome, last := OutcomeAt(features, prepare), LastBatchStart(features, size, l);
      JudgedAsAWhole(job, outcome, last, |features|) <==>
      !job.completeSnapshot || job.policy.UnchangedPolicy? ||
      SeenRefs(outcome, 0, |features|) <= SeenRefs(outcome, last, |features|)
  {
    var outcome, last, total := OutcomeAt(features, prepare), LastBatchStart(features, size, l), |features|;
    LastStartInSource(features, size, l);
    var all, seen := SeenRefs(outcome, 0, total), SeenRefs(outcome, last, total);
    LastRefsAreSeen(outcome, last, total);
    if job.completeSnapshot && !job.policy.UnchangedPolicy? && !(all <= seen) {
      var r :| r in all && r !in seen;
      ForgottenEntity(job, outcome, last, total, r);
      assert total > 0;
    } else {
      forall items ensures AfterSnapshot(items, job, outcome, last, total) == AfterSnapshot(items, job, outcome, 0, total) {
        assert !job.completeSnapshot || job.policy.UnchangedPolicy? || all == seen;
      }
    }
  }

  /** An entity seen in an earlier batch only is marked as disappeared. */
  lemma ForgottenEntity(job: Job, outcome: Outcomes, last: nat, total: nat, r: string)
    requires job.completeSnapshot && !job.policy.UnchangedPolicy?
    requires r in SeenRefs(outcome, 0, total) && r !in SeenRefs(outcome, last, total)
    ensures total > 0
    ensures var items := map[0 := Entity(job.origin, Some(r), CurrentSource, APPROVED, [])];
      && AfterSnapshot(items, job, outcome, 0, total)[0] == items[0]
      && AfterSnapshot(items, job, outcome, last, total)[0].history == [(job.policy, APPROVED)]
  {
  }

  // ------------------------------------------------ sources whose references differ

  ghost predicate AllStaged(outcome: Outcomes, total: nat) {
    forall o: nat | o < total :: outcome(o).Stage?
  }

  ghost predicate RefsDiffer(outcome: Outcomes, total: nat) {
    forall o: nat, p: nat | o < p < total :: Ref(outcome, o) != Ref(outcome, p)
  }

  function Ref(outcome: Outcomes, o: nat): Option<string> {
    if outcome(o).Stage? then Some(outcome(o).content.sourceRef) else None
  }

  lemma SeenRefAt(outcome: Outcomes, lo: nat, hi: nat, r: string)
    ensures r in SeenRefs(outcome, lo, hi) <==> exists o: nat :: lo <= o < hi && Ref(outcome, o) == Some(r)
  {
    if r in SeenRefs(outcome, lo, hi) {
      var entry :| entry in Entries(outcome, lo, hi) && entry.sourceRef == r;
      CollectedAt(EntryOf(outcome), lo, hi, entry);
      var o: nat :| lo <= o < hi && EntryOf(outcome)(o) == Some(entry);
      assert Ref(outcome, o) == Some(r);
    }
    if o: nat :| lo <= o < hi && Ref(outcome, o) == Some(r) {
      var entry := EntryOf(outcome)(o).value;
      CollectedAt(EntryOf(outcome), lo, hi, entry);
      assert entry in Entries(outcome, lo, hi);
    }
  }

  /** The references under which the ordinals from lo to hi were staged. */
  ghost predicate IsSeen(seen: set<string>, outcome: Outcomes, lo: nat, hi: nat) {
    forall r :: r in seen <==> exists o: nat :: lo <= o < hi && Ref(outcome, o) == Some(r)
  }

  lemma SnapshotJudges(items: map<Id, Entity>, job: Job, outcome: Outcomes, last: nat, total: nat)
    ensures var after := AfterSnapshot(items, job, outcome, last, total);
      if job.completeSnapshot && total > 0 then
        var seen := SeenRefs(outcome, last, total);
        && IsSeen(seen, outcome, last, total)
        && AllJudged(items, after, job.origin, seen, job.policy)
        && ReportsMissed(items, Changed(items, after), job.origin, seen, job.policy)
      else after == items && Changed(items, after) == {}
  {
    var seen := SeenRefs(outcome, last, total);
    forall r ensures r in seen <==> exists o: nat :: last <= o < total && Ref(outcome, o) == Some(r) {
      SeenRefAt(outcome, last, total, r);
    }
    DisappearanceJudges(items, job.origin, seen, job.policy);
    ChangedHaveVanished(items, job.origin, seen, job.policy);
  }

  /** A snapshot all of whose features are staged under different references is judged
      rightly exactly when it fits one batch. */
  lemma RightIffOneBatch(job: Job, features: seq<Feature>, size: Feature -> Size, l: Limits, prepare: (Feature, nat) -> Outcome)
    requires job.completeSnapshot && !job.policy.UnchangedPolicy?
    requires var outcome := OutcomeAt(features, prepare); AllStaged(outcome, |features|) && RefsDiffer(outcome, |features|)
    ensures JudgedAsAWhole(job, OutcomeAt(features, prepare), LastBatchStart(features, size, l), |features|) <==> Obeys(features, size, l)
  {
    var outcome, last, total := OutcomeAt(features, prepare), LastBatchStart(features, size, l), |features|;
    DisappearanceIsRightIff(job, features, size, l, prepare);
    LastStartInSource(features, size, l);
    if last > 0 {
      assert outcome(0).Stage?;
      var r := outcome(0).content.sourceRef;
      assert Ref(outcome, 0) == Some(r);
      SeenRefAt(outcome, 0, total, r);
      SeenRefAt(outcome, last, total, r);
      forall o: nat | last <= o < total ensures Ref(outcome, o) != Some(r) {
        assert Ref(outcome, 0) != Ref(outcome, o);
      }
    }
  }

  /** The smallest failing source: two features and one feature per batch. The entity that
      only the first one mentions is marked. */
  lemma TwoBatchesForget(job: Job, f: Feature, g: Feature, size: Feature -> Size, bytes: int, prepare: (Feature, nat) -> Outcome,
                         a: Content, b: Content)
    requires job.completeSnapshot && !job.policy.UnchangedPolicy?
    requires prepare(f, 0) == Stage(a) && prepare(g, 1) == Stage(b) && a.sourceRef != b.sourceRef
    ensures var last := LastBatchStart([f, g], size, Limits(1, bytes));
      var items := map[0 := Entity(job.origin, Some(a.sourceRef), CurrentSource, APPROVED, [])];
      && last == 1
      && AfterSnapshot(items, job, OutcomeAt([f, g], prepare), last, 2)[0].history == [(job.policy, APPROVED)]
  {
    var features, l := [f, g], Limits(1, bytes);
    var outcome := OutcomeAt(features, prepare);
    assert !Obeys(features, size, l);
    LastStartInSource(features, size, l);
    SeenRefAt(outcome, 0, 2, a.sourceRef);
    SeenRefAt(outcome, 1, 2, a.sourceRef);
    assert Ref(outcome, 0) == Some(a.sourceRef) && Ref(outcome, 1) == Some(b.sourceRef);
    ForgottenEntity(job, outcome, 1, 2, a.sourceRef);
  }
}
