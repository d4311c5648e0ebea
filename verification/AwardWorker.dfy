/** The award jobs of the activity worker, and what happens to a qualified level while
    participation is recorded. */
module AwardWorkers {
  import opened Wrappers
  import opened Ledger
  import Spec = Ledger
  import opened Aggregates
  import opened Cascades
  import opened Awards

  // ------------------------------------------------ facts

  function CountValue(n: int): Value {
    Value("", Some(n as real))
  }

  /** The facts of a subject are the columns of its row; a missing row counts nothing. */
  function SubjectFacts(s: Subjects, k: SubjectKey, entityType: Value): Facts {
    var row := Row(s, k);
    map["qsoCount" := CountValue(row.qsoCount),
        "activationCount" := CountValue(row.activationCount),
        "uniqueCallsignCount" := CountValue(row.uniqueCallsigns),
        "uniqueEntityCount" := CountValue(row.uniqueEntities),
        "entityType" := entityType]
  }

  function KeyOf(award: Award, subject: Id): SubjectKey {
    SubjectKey(award.programme, subject, award.category)
  }

  ghost function FactNumber(facts: Facts, m: Metric): real {
    var number := Fact(facts, FieldOf(m)).number;
    if number.Some? then number.value else 0.0
  }

  lemma FactsAreColumns(s: Subjects, k: SubjectKey, entityType: Value)
    ensures var facts := SubjectFacts(s, k, entityType);
      && FactNumber(facts, QsoCount) == Row(s, k).qsoCount as real
      && FactNumber(facts, ActivationCount) == Row(s, k).activationCount as real
      && FactNumber(facts, UniqueCallsigns) == Row(s, k).uniqueCallsigns as real
      && FactNumber(facts, UniqueEntities) == Row(s, k).uniqueEntities as real
      && CountOf(facts, QsoCount).number == Some(Row(s, k).qsoCount as real)
      && CountOf(facts, ActivationCount).number == Some(Row(s, k).activationCount as real)
      && CountOf(facts, UniqueCallsigns).number == Some(Row(s, k).uniqueCallsigns as real)
      && CountOf(facts, UniqueEntities).number == Some(Row(s, k).uniqueEntities as real)
      && facts.Keys == {"qsoCount", "activationCount", "uniqueCallsignCount", "uniqueEntityCount", "entityType"}
      && facts["entityType"] == entityType
  {
  }

  /** After any run the facts of a subject are counts over the ledger: its QSOs, its
      activations, the callsigns it worked, and, for a hunter or in a run whose cascades all
      come last, the entities. */
  lemma FactsCountTheLedger(ops: seq<Op>, k: SubjectKey, entityType: Value)
    ensures var t := Run(EMPTY, ops);
      var facts := SubjectFacts(t.subjects, k, entityType);
      && FactNumber(facts, QsoCount) == |OwnedQsos(t.ledger, k)| as real
      && FactNumber(facts, ActivationCount) == |OwnedActivations(t.ledger, k)| as real
      && FactNumber(facts, UniqueCallsigns) == |RefCallsigns(t.ledger, k)| as real
      && (k.category == HUNTER || CascadesLast(ops) ==>
            FactNumber(facts, UniqueEntities) == |RefEntities(t.ledger, k)| as real)
  {
    FactsAreColumns(Run(EMPTY, ops).subjects, k, entityType);
    RunsAreExact(ops, k);
  }

  // ------------------------------------------------ the worker

  /** What the worker computes: like the API, but an award without levels has none. */
  function Computed(award: Award, facts: Facts): Result<Evaluation, EvaluationError> {
    ApiEvaluation(award.(levels := if award.levels.Some? then award.levels else Some([])), facts)
  }

  /** The worker's evaluation of an award with levels is the API's, and of one without
      levels the API's for an empty list of them. */
  lemma ComputedIs(award: Award, facts: Facts)
    ensures award.levels.Some? ==> Computed(award, facts) == ApiEvaluation(award, facts)
    ensures award.levels.None? ==>
      && Computed(award, facts) == ApiEvaluation(award.(levels := Some([])), facts)
      && (Computed(award, facts).Success? ==> Computed(award, facts).value.levels == [])
      && ApiEvaluation(award, facts).Failure?
  {
  }

  /** Primary key of the progress table. */
  datatype ProgressKey = ProgressKey(awardId: Id, version: int, subject: Id)

  datatype Progress = Progress(facts: Facts, evaluation: Evaluation)

  datatype Recalculation = Recalculation(
    programme: Id,
    subjects: set<Id>,
    awardId: Option<Id>,
    ruleVersion: Option<int>)

  predicate Selected(award: Award, job: Recalculation) {
    && (job.awardId.Some? ==> award.id == job.awardId.value)
    && award.programme == job.programme
    && award.published
    && (job.ruleVersion.Some? ==> award.version == job.ruleVersion.value)
  }

  function ListedSubjects(s: Subjects, programme: Id, category: Category): set<Id> {
    set k | k in s.aggregates && k.programme == programme && k.category == category :: k.subject
  }

  function SubjectsFor(award: Award, job: Recalculation, s: Subjects): set<Id> {
    if job.subjects != {} then job.subjects else ListedSubjects(s, job.programme, award.category)
  }

  ghost predicate Records(saved: map<ProgressKey, Progress>, award: Award, subject: Id, facts: Facts) {
    var key := ProgressKey(award.id, award.version, subject);
    && Computed(award, facts).Success?
    && key in saved && saved[key] == Progress(facts, Computed(award, facts).value)
  }

  // ------------------------------------------------ notices of a qualified level

  /** Deduplication keys: an evaluation's names the award and the subject, a
      recalculation's also the eligible levels. */
  datatype NoticeKey = ByAward(awardId: Id, version: int, subject: Id) | ByLevels(awardId: Id, version: int, subject: Id, eligible: seq<Id>)

  datatype Notice = Notice(recipient: Id, awardId: Id, levels: seq<Standing>)

  function EligibleIds(levels: seq<Standing>): seq<Id> {
    if levels == [] then []
    else (if levels[0].eligible then [levels[0].level.id] else []) + EligibleIds(levels[1..])
  }

  lemma {:induction false} EligibleIdsAreOfEligible(levels: seq<Standing>)
    ensures EligibleIds(levels) != [] <==> exists i :: 0 <= i < |levels| && levels[i].eligible
    decreases |levels|
  {
    if levels != [] {
      EligibleIdsAreOfEligible(levels[1..]);
      assert forall i :: 0 <= i < |levels| - 1 ==> levels[1..][i] == levels[i + 1];
      if j: int :| 0 <= j < |levels| && levels[j].eligible && j != 0 {
        assert levels[1..][j - 1].eligible;
      }
    }
  }

  function LevelsKey(award: Award, subject: Id, evaluation: Evaluation): NoticeKey {
    ByLevels(award.id, award.version, subject, EligibleIds(evaluation.levels))
  }

  /** ON CONFLICT DO NOTHING: the first notice with a key is the one that stays. */
  function Noticed(notices: map<NoticeKey, Notice>, key: NoticeKey, award: Award, subject: Id, evaluation: Evaluation): map<NoticeKey, Notice> {
    if EligibleIds(evaluation.levels) == [] || key in notices then notices
    else notices[key := Notice(subject, award.id, evaluation.levels)]
  }

  /** A recalculated subject with an eligible level has its notice. */
  ghost predicate Announced(notices: map<NoticeKey, Notice>, award: Award, subject: Id, facts: Facts) {
    Computed(award, facts).Success? && EligibleIds(Computed(award, facts).value.levels) != [] ==>
      LevelsKey(award, subject, Computed(award, facts).value) in notices
  }

  /** A new notice of a recalculation is for one of its subjects, and says what was computed. */
  ghost predicate Justified(key: NoticeKey, notice: Notice, award: Award, subjects: set<Id>, s: Subjects, types: Id -> Value) {
    exists subject :: subject in subjects &&
      var r := Computed(award, SubjectFacts(s, KeyOf(award, subject), types(subject)));
      r.Success? && key == LevelsKey(award, subject, r.value) && notice == Notice(subject, award.id, r.value.levels) && key.eligible != []
  }

  ghost predicate JustifiedByJob(key: NoticeKey, notice: Notice, definitions: seq<Award>, job: Recalculation, s: Subjects, types: Id -> Value) {
    exists i :: 0 <= i < |definitions| && Selected(definitions[i], job) &&
                Justified(key, notice, definitions[i], SubjectsFor(definitions[i], job, s), s, types)
  }

  /** Notices are never changed or withdrawn. */
  ghost predicate Kept(before: map<NoticeKey, Notice>, after: map<NoticeKey, Notice>) {
    forall key | key in before :: key in after && after[key] == before[key]
  }

  ghost predicate UpToDate(saved: map<ProgressKey, Progress>, notices: map<NoticeKey, Notice>, award: Award, subject: Id, facts: Facts) {
    Records(saved, award, subject, facts) && Announced(notices, award, subject, facts)
  }

  /** The progress rows and the notices of one award are up to date. */
  ghost predicate Recalculated(saved: map<ProgressKey, Progress>, notices: map<NoticeKey, Notice>,
                               award: Award, job: Recalculation, s: Subjects, types: Id -> Value) {
    Selected(award, job) ==> forall subject | subject in SubjectsFor(award, job, s) ::
      UpToDate(saved, notices, award, subject, SubjectFacts(s, KeyOf(award, subject), types(subject)))
  }

  ghost predicate InScope(key: ProgressKey, definitions: seq<Award>, job: Recalculation, s: Subjects) {
    exists i :: 0 <= i < |definitions| && Selected(definitions[i], job) &&
                key.awardId == definitions[i].id && key.subject in SubjectsFor(definitions[i], job, s)
  }

  ghost predicate SomeFails(award: Award, subjects: set<Id>, s: Subjects, types: Id -> Value, error: EvaluationError) {
    exists subject :: subject in subjects &&
                      Computed(award, SubjectFacts(s, KeyOf(award, subject), types(subject))) == Failure(error)
  }

  lemma OtherAwardKept(before: map<ProgressKey, Progress>, after: map<ProgressKey, Progress>,
                       notices: map<NoticeKey, Notice>, longer: map<NoticeKey, Notice>,
                       award: Award, other: Award, job: Recalculation, s: Subjects, types: Id -> Value)
    requires Recalculated(before, notices, award, job, s, types) && award.id != other.id && Kept(notices, longer)
    requires forall key :: key in before ==> key in after
    requires forall key :: key in after && (key !in before || after[key] != before[key]) ==> key.awardId == other.id
    ensures Recalculated(after, longer, award, job, s, types)
  {
    if Selected(award, job) {
      forall subject | subject in SubjectsFor(award, job, s)
        ensures UpToDate(after, longer, award, subject, SubjectFacts(s, KeyOf(award, subject), types(subject)))
      {
        assert UpToDate(before, notices, award, subject, SubjectFacts(s, KeyOf(award, subject), types(subject)));
      }
    }
  }

  lemma OtherSubjectKept(before: map<ProgressKey, Progress>, after: map<ProgressKey, Progress>,
                         notices: map<NoticeKey, Notice>, longer: map<NoticeKey, Notice>,
                         award: Award, subject: Id, other: Id, progress: Progress, facts: Facts)
    requires UpToDate(before, notices, award, subject, facts) && subject != other && Kept(notices, longer)
    requires after == before[ProgressKey(award.id, award.version, other) := progress]
    ensures UpToDate(after, longer, award, subject, facts)
  {
  }

  /** What is new came from this award and these subjects. */
  ghost predicate OnlyFor(before: map<ProgressKey, Progress>, after: map<ProgressKey, Progress>, award: Award, subjects: set<Id>) {
    && (forall key | key in before :: key in after)
    && (forall key | key in after && (key !in before || after[key] != before[key]) ::
          key.awardId == award.id && key.subject in subjects)
  }

  ghost predicate AllJustified(before: map<NoticeKey, Notice>, after: map<NoticeKey, Notice>, award: Award, subjects: set<Id>,
                               s: Subjects, types: Id -> Value) {
    Kept(before, after) && forall key | key in after && key !in before :: Justified(key, after[key], award, subjects, s, types)
  }

  /** Which awards a recalculation is for: published ones of its programme, and only the
      award or the version it names, if it names one. */
  ghost predicate IsFor(job: Recalculation, award: Award) {
    && award.published && award.programme == job.programme
    && job.awardId in {None, Some(award.id)} && job.ruleVersion in {None, Some(award.version)}
  }

  /** Which subjects: the named ones, or if none is named all that the award's category
      lists in the programme. */
  ghost predicate IsAbout(job: Recalculation, award: Award, s: Subjects, subject: Id) {
    subject in job.subjects || (job.subjects == {} && SubjectKey(job.programme, subject, award.category) in s.aggregates)
  }

  ghost predicate DifferentIds(definitions: seq<Award>) {
    forall i, j | 0 <= i < j < |definitions| :: definitions[i].id != definitions[j].id
  }

  /** The first n awards are up to date. */
  ghost predicate DoneUpTo(saved: map<ProgressKey, Progress>, notices: map<NoticeKey, Notice>,
                           definitions: seq<Award>, n: nat, job: Recalculation, s: Subjects, types: Id -> Value)
    requires n <= |definitions|
  {
    forall i :: 0 <= i < n ==> Recalculated(saved, notices, definitions[i], job, s, types)
  }

  ghost predicate ScopeFine(before: map<ProgressKey, Progress>, after: map<ProgressKey, Progress>,
                            definitions: seq<Award>, job: Recalculation, s: Subjects) {
    && (forall key :: key in before ==> key in after)
    && (forall key :: key in after && (key !in before || after[key] != before[key]) ==> InScope(key, definitions, job, s))
  }

  ghost predicate NoticesFine(heard: map<NoticeKey, Notice>, after: map<NoticeKey, Notice>,
                              definitions: seq<Award>, job: Recalculation, s: Subjects, types: Id -> Value) {
    && Kept(heard, after)
    && (forall key :: key in after && key !in heard ==> JustifiedByJob(key, after[key], definitions, job, s, types))
  }

  ghost predicate SomeAwardFails(definitions: seq<Award>, job: Recalculation, s: Subjects, types: Id -> Value, error: EvaluationError) {
    exists i :: 0 <= i < |definitions| && Selected(definitions[i], job) &&
                SomeFails(definitions[i], SubjectsFor(definitions[i], job, s), s, types, error)
  }

  lemma MoreJustified(heard: map<NoticeKey, Notice>, told: map<NoticeKey, Notice>, after: map<NoticeKey, Notice>,
                      definitions: seq<Award>, i: nat, job: Recalculation, s: Subjects, types: Id -> Value)
    requires i < |definitions| && Selected(definitions[i], job)
    requires NoticesFine(heard, told, definitions, job, s, types)
    requires AllJustified(told, after, definitions[i], SubjectsFor(definitions[i], job, s), s, types)
    ensures NoticesFine(heard, after, definitions, job, s, types)
  {
    forall key | key in after && key !in heard ensures JustifiedByJob(key, after[key], definitions, job, s, types) {
      if key in told {
        assert JustifiedByJob(key, told[key], definitions, job, s, types);
      } else {
        assert Justified(key, after[key], definitions[i], SubjectsFor(definitions[i], job, s), s, types);
      }
    }
  }

  lemma MoreInScope(before: map<ProgressKey, Progress>, sofar: map<ProgressKey, Progress>, after: map<ProgressKey, Progress>,
                    definitions: seq<Award>, i: nat, job: Recalculation, s: Subjects)
    requires i < |definitions| && Selected(definitions[i], job) && ScopeFine(before, sofar, definitions, job, s)
    requires OnlyFor(sofar, after, definitions[i], SubjectsFor(definitions[i], job, s))
    ensures ScopeFine(before, after, definitions, job, s)
  {
    forall key | key in after && (key !in before || after[key] != before[key]) ensures InScope(key, definitions, job, s) {
      if key in sofar && after[key] == sofar[key] {
        assert InScope(key, definitions, job, s);
      } else {
        assert key.awardId == definitions[i].id && key.subject in SubjectsFor(definitions[i], job, s);
      }
    }
  }

  /** An award done, or not selected, after others that are done. */
  lemma OneMoreDone(sofar: map<ProgressKey, Progress>, after: map<ProgressKey, Progress>,
                    told: map<NoticeKey, Notice>, notices: map<NoticeKey, Notice>,
                    definitions: seq<Award>, i: nat, job: Recalculation, s: Subjects, types: Id -> Value)
    requires i < |definitions| && DifferentIds(definitions) && DoneUpTo(sofar, told, definitions, i, job, s, types)
    requires Selected(definitions[i], job) ==>
      && Recalculated(after, notices, definitions[i], job, s, types)
      && OnlyFor(sofar, after, definitions[i], SubjectsFor(definitions[i], job, s)) && Kept(told, notices)
    requires !Selected(definitions[i], job) ==> after == sofar && notices == told
    ensures DoneUpTo(after, notices, definitions, i + 1, job, s, types)
  {
    forall j | 0 <= j < i ensures Recalculated(after, notices, definitions[j], job, s, types) {
      assert Recalculated(sofar, told, definitions[j], job, s, types);
      if Selected(definitions[i], job) {
        OtherAwardKept(sofar, after, told, notices, definitions[j], definitions[i], job, s, types);
      }
    }
  }

  /** Every such award is recorded for every such subject with the facts of that subject. */
  ghost predicate AllRecorded(saved: map<ProgressKey, Progress>, definitions: seq<Award>, job: Recalculation, s: Subjects, types: Id -> Value) {
    forall i, subject | 0 <= i < |definitions| && IsFor(job, definitions[i]) && IsAbout(job, definitions[i], s, subject) ::
      Records(saved, definitions[i], subject,
              SubjectFacts(s, SubjectKey(definitions[i].programme, subject, definitions[i].category), types(subject)))
  }

  /** Nothing else is. */
  ghost predicate OnlyScope(before: map<ProgressKey, Progress>, after: map<ProgressKey, Progress>, definitions: seq<Award>,
                            job: Recalculation, s: Subjects) {
    forall key | key in after && (key !in before || after[key] != before[key]) :: MayChange(key, definitions, job, s)
  }

  ghost predicate MayChange(key: ProgressKey, definitions: seq<Award>, job: Recalculation, s: Subjects) {
    exists i :: 0 <= i < |definitions| && IsFor(job, definitions[i]) &&
                key.awardId == definitions[i].id && IsAbout(job, definitions[i], s, key.subject)
  }

  lemma ScopeIsFor(before: map<ProgressKey, Progress>, after: map<ProgressKey, Progress>, notices: map<NoticeKey, Notice>,
                   definitions: seq<Award>, job: Recalculation, s: Subjects, types: Id -> Value)
    requires forall key :: key in after && (key !in before || after[key] != before[key]) ==> InScope(key, definitions, job, s)
    ensures OnlyScope(before, after, definitions, job, s)
    ensures (forall i :: 0 <= i < |definitions| ==> Recalculated(after, notices, definitions[i], job, s, types)) ==>
      AllRecorded(after, definitions, job, s, types)
  {
    forall key | key in after && (key !in before || after[key] != before[key]) ensures MayChange(key, definitions, job, s) {
      var i :| 0 <= i < |definitions| && Selected(definitions[i], job) &&
               key.awardId == definitions[i].id && key.subject in SubjectsFor(definitions[i], job, s);
      SelectedIs(definitions[i], job, s);
    }
    if forall i :: 0 <= i < |definitions| ==> Recalculated(after, notices, definitions[i], job, s, types) {
      forall i, subject | 0 <= i < |definitions| && IsFor(job, definitions[i]) && IsAbout(job, definitions[i], s, subject)
        ensures Records(after, definitions[i], subject,
                        SubjectFacts(s, SubjectKey(definitions[i].programme, subject, definitions[i].category), types(subject)))
      {
        SelectedIs(definitions[i], job, s);
        assert Recalculated(after, notices, definitions[i], job, s, types);
        assert UpToDate(after, notices, definitions[i], subject, SubjectFacts(s, KeyOf(definitions[i], subject), types(subject)));
      }
    }
  }

  lemma SelectedIs(award: Award, job: Recalculation, s: Subjects)
    ensures Selected(award, job) <==> IsFor(job, award)
    ensures forall subject :: subject in SubjectsFor(award, job, s) <==> IsAbout(job, award, s, subject)
  {
    forall subject ensures subject in ListedSubjects(s, job.programme, award.category) <==>
      SubjectKey(job.programme, subject, award.category) in s.aggregates
    {
    }
  }

  class AwardWorker {
    var saved: map<ProgressKey, Progress>
    var notices: map<NoticeKey, Notice>

    constructor ()
      ensures saved == map[] && notices == map[]
    {
      saved, notices := map[], map[];
    }

    /** The worker's own copy of the evaluation. */
    method Compute(award: Award, facts: Facts) returns (r: Result<Evaluation, EvaluationError>)
      ensures r == Computed(award, facts)
      ensures award.levels.Some? ==> r == ApiEvaluation(award, facts)
    {
      var met := Evaluate(award.condition, facts);
      if met.Failure? {
        return Failure(met.error);
      }
      var field := if award.metric.Some? then MetricField(award.metric.value) else "qsoCount";
      var progress := Fact(facts, field).number;
      if progress.None? {
        return Failure(NotNumeric);
      }
      var levels := if award.levels.Some? then award.levels.value else [];
      var standings: seq<Standing> := [];
      ghost var all := Standings(levels, met.value, progress.value);
      assert all.Success? ==> [] + all.value == all.value;
      for i := 0 to |levels|
        invariant all == Before(standings, Standings(levels[i..], met.value, progress.value))
      {
        assert levels[i..][0] == levels[i] && levels[i..][1..] == levels[i + 1..];
        var threshold := levels[i].threshold.number;
        if met.value && threshold.None? {
          return Failure(NotNumeric);
        }
        var standing := Standing(levels[i], met.value && progress.value >= threshold.value);
        BeforeOne(standings, standing, Standings(levels[i + 1..], met.value, progress.value));
        standings := standings + [standing];
      }
      assert standings + [] == standings;
      return Success(Evaluation(met.value, progress.value, standings));
    }

    method Save(award: Award, subject: Id, facts: Facts, evaluation: Evaluation)
      modifies this`saved
      ensures saved == old(saved)[ProgressKey(award.id, award.version, subject) := Progress(facts, evaluation)]
    {
      saved := saved[ProgressKey(award.id, award.version, subject) := Progress(facts, evaluation)];
    }

    method CreateNotification(key: NoticeKey, award: Award, subject: Id, evaluation: Evaluation)
      modifies this`notices
      ensures notices == Noticed(old(notices), key, award, subject, evaluation)
    {
      var qualified := EligibleIds(evaluation.levels);
      if qualified != [] && key !in notices {
        notices := notices[key := Notice(subject, award.id, evaluation.levels)];
      }
    }

    /** AWARD_EVALUATION: one award, one subject, with the facts of the payload if it has any. */
    method ProcessAwardEvaluation(award: Award, subject: Id, supplied: Facts, s: Subjects, entityType: Value)
      returns (r: Result<Evaluation, EvaluationError>)
      modifies this
      ensures var facts := if supplied != map[] then supplied else SubjectFacts(s, KeyOf(award, subject), entityType);
        && r == Computed(award, facts)
        && saved == if r.Success?
                    then old(saved)[ProgressKey(award.id, award.version, subject) := Progress(facts, r.value)]
                    else old(saved)
      ensures notices == if r.Success?
                         then Noticed(old(notices), ByAward(award.id, award.version, subject), award, subject, r.value)
                         else old(notices)
    {
      var facts := if supplied != map[] then supplied else SubjectFacts(s, KeyOf(award, subject), entityType);
      r := Compute(award, facts);
      if r.Success? {
        Save(award, subject, facts, r.value);
        CreateNotification(ByAward(award.id, award.version, subject), award, subject, r.value);
      }
    }

    /** AWARD_RECALCULATE: every selected award for every subject. */
    method ProcessAwardRecalculation(definitions: seq<Award>, job: Recalculation, s: Subjects, types: Id -> Value)
      returns (error: Option<EvaluationError>)
      requires forall i, j :: 0 <= i < j < |definitions| ==> definitions[i].id != definitions[j].id
      modifies this
      ensures error.None? ==> forall i :: 0 <= i < |definitions| ==> Recalculated(saved, notices, definitions[i], job, s, types)
      ensures forall key :: key in old(saved) ==> key in saved
      ensures forall key :: key in saved && (key !in old(saved) || saved[key] != old(saved)[key]) ==>
        InScope(key, definitions, job, s)
      ensures Kept(old(notices), notices)
      ensures forall key :: key in notices && key !in old(notices) ==> JustifiedByJob(key, notices[key], definitions, job, s, types)
      ensures error.Some? ==>
        exists i :: 0 <= i < |definitions| && Selected(definitions[i], job) &&
                    SomeFails(definitions[i], SubjectsFor(definitions[i], job, s), s, types, error.value)
      ensures error.None? ==> AllRecorded(saved, definitions, job, s, types)
      ensures OnlyScope(old(saved), saved, definitions, job, s)
    {
      error := RecalculateAll(definitions, job, s, types);
      ScopeIsFor(old(saved), saved, notices, definitions, job, s, types);
    }

    /** The loop over the definitions. */
    method RecalculateAll(definitions: seq<Award>, job: Recalculation, s: Subjects, types: Id -> Value)
      returns (error: Option<EvaluationError>)
      requires DifferentIds(definitions)
      modifies this
      ensures error.None? ==> DoneUpTo(saved, notices, definitions, |definitions|, job, s, types)
      ensures ScopeFine(old(saved), saved, definitions, job, s)
      ensures NoticesFine(old(notices), notices, definitions, job, s, types)
      ensures error.Some? ==> SomeAwardFails(definitions, job, s, types, error.value)
    {
      ghost var before, heard := saved, notices;
      for i := 0 to |definitions|
        invariant DoneUpTo(saved, notices, definitions, i, job, s, types)
        invariant ScopeFine(before, saved, definitions, job, s)
        invariant NoticesFine(heard, notices, definitions, job, s, types)
      {
        ghost var sofar, told := saved, notices;
        if Selected(definitions[i], job) {
          error := RecalculateAward(definitions[i], SubjectsFor(definitions[i], job, s), s, types);
          MoreJustified(heard, told, notices, definitions, i, job, s, types);
          MoreInScope(before, sofar, saved, definitions, i, job, s);
          if error.Some? {
            return;
          }
        }
        OneMoreDone(sofar, saved, told, notices, definitions, i, job, s, types);
      }
      error := None;
    }

    method RecalculateAward(award: Award, subjects: set<Id>, s: Subjects, types: Id -> Value)
      returns (error: Option<EvaluationError>)
      modifies this
      ensures error.None? ==> forall subject | subject in subjects ::
        UpToDate(saved, notices, award, subject, SubjectFacts(s, KeyOf(award, subject), types(subject)))
      ensures OnlyFor(old(saved), saved, award, subjects)
      ensures AllJustified(old(notices), notices, award, subjects, s, types)
      ensures error.Some? ==> SomeFails(award, subjects, s, types, error.value)
    {
      var rest := subjects;
      ghost var before, heard := saved, notices;
      while rest != {}
        invariant rest <= subjects
        invariant forall subject | subject in subjects - rest ::
          UpToDate(saved, notices, award, subject, SubjectFacts(s, KeyOf(award, subject), types(subject)))
        invariant OnlyFor(before, saved, award, subjects)
        invariant AllJustified(heard, notices, award, subjects, s, types)
        decreases rest
      {
        var subject :| subject in rest;
        ghost var sofar, told := saved, notices;
        error := RecalculateSubject(award, subject, subjects, s, types, before, heard);
        if error.Some? {
          return;
        }
        forall done | done in subjects - rest
          ensures UpToDate(saved, notices, award, done, SubjectFacts(s, KeyOf(award, done), types(done)))
        {
          OtherSubjectKept(sofar, saved, told, notices, award, done, subject,
                           saved[ProgressKey(award.id, award.version, subject)], SubjectFacts(s, KeyOf(award, done), types(done)));
        }
        rest := rest - {subject};
      }
      error := None;
    }

    /** One subject of a recalculation. */
    method RecalculateSubject(award: Award, subject: Id, ghost subjects: set<Id>, s: Subjects, types: Id -> Value,
                              ghost before: map<ProgressKey, Progress>, ghost heard: map<NoticeKey, Notice>)
      returns (error: Option<EvaluationError>)
      requires subject in subjects && OnlyFor(before, saved, award, subjects) && AllJustified(heard, notices, award, subjects, s, types)
      modifies this
      ensures error.None? ==>
        var key := ProgressKey(award.id, award.version, subject);
        && UpToDate(saved, notices, award, subject, SubjectFacts(s, KeyOf(award, subject), types(subject)))
        && key in saved && saved == old(saved)[key := saved[key]]
      ensures Kept(old(notices), notices)
      ensures OnlyFor(before, saved, award, subjects) && AllJustified(heard, notices, award, subjects, s, types)
      ensures error.Some? ==> SomeFails(award, subjects, s, types, error.value)
    {
      var facts := SubjectFacts(s, KeyOf(award, subject), types(subject));
      var r := Compute(award, facts);
      if r.Failure? {
        return Some(r.error);
      }
      Save(award, subject, facts, r.value);
      CreateNotification(LevelsKey(award, subject, r.value), award, subject, r.value);
      NoticeIsJustified(heard, old(notices), award, subject, subjects, s, types);
      error := None;
    }
  }

  /** A recalculated subject adds at most its own notice. */
  lemma NoticeIsJustified(heard: map<NoticeKey, Notice>, told: map<NoticeKey, Notice>, award: Award, subject: Id, subjects: set<Id>,
                          s: Subjects, types: Id -> Value)
    requires subject in subjects && AllJustified(heard, told, award, subjects, s, types)
    requires Computed(award, SubjectFacts(s, KeyOf(award, subject), types(subject))).Success?
    ensures var evaluation := Computed(award, SubjectFacts(s, KeyOf(award, subject), types(subject))).value;
      var after := Noticed(told, LevelsKey(award, subject, evaluation), award, subject, evaluation);
      Kept(told, after) && AllJustified(heard, after, award, subjects, s, types)
  {
    var evaluation := Computed(award, SubjectFacts(s, KeyOf(award, subject), types(subject))).value;
    var key := LevelsKey(award, subject, evaluation);
    var after := Noticed(told, key, award, subject, evaluation);
    if key in after && key !in told {
      assert Justified(key, after[key], award, subjects, s, types);
    }
  }

  /** A result list with some standings before it. */
  ghost function Before(first: seq<Standing>, r: Result<seq<Standing>, EvaluationError>): Result<seq<Standing>, EvaluationError> {
    if r.Success? then Success(first + r.value) else r
  }

  lemma BeforeOne(first: seq<Standing>, x: Standing, r: Result<seq<Standing>, EvaluationError>)
    ensures Before(first, Before([x], r)) == Before(first + [x], r)
  {
    assert r.Success? ==> first + ([x] + r.value) == (first + [x]) + r.value;
  }

  // ------------------------------------------------ along a run

  /** No distinct count of a row is above what its side table lists: true until an entity
      cascade recomputes a column from more rows than it lists. */
  ghost predicate SideTablesLead(s: Subjects) {
    forall k :: Leads(SubjectView(s, k))
  }

  ghost predicate Leads(v: View) {
    v.row.uniqueCallsigns <= |v.callsigns| && v.row.uniqueEntities <= |v.entities|
  }

  ghost predicate NoLess(a: Aggregate, b: Aggregate) {
    && a.qsoCount <= b.qsoCount && a.activationCount <= b.activationCount
    && a.uniqueCallsigns <= b.uniqueCallsigns && a.uniqueEntities <= b.uniqueEntities
  }

  ghost predicate Advances(s: Subjects, r: Subjects) {
    SideTablesLead(r) && forall k :: NoLess(Row(s, k), Row(r, k))
  }

  lemma UpsertAdvances(s: Subjects, t: Touch)
    requires SideTablesLead(s)
    ensures Advances(s, Upsert(s, t))
  {
    forall k ensures Leads(SubjectView(Upsert(s, t), k)) && NoLess(Row(s, k), Row(Upsert(s, t), k)) {
      var v := SubjectView(s, k);
      assert Leads(v);
      UpsertChangesOneView(s, t, k);
      SubsetSize(v.callsigns, With(v.callsigns, t.callsign));
      SubsetSize(v.entities, With(v.entities, t.entityId));
    }
  }

  lemma AdvancesChain(s: Subjects, r: Subjects, u: Subjects)
    requires Advances(s, r) && Advances(r, u)
    ensures Advances(s, u)
  {
    forall k ensures NoLess(Row(s, k), Row(u, k)) {
      assert NoLess(Row(s, k), Row(r, k)) && NoLess(Row(r, k), Row(u, k));
    }
  }

  lemma ApplyQsoAdvances(s: Subjects, site: Site, q: Qso)
    requires SideTablesLead(s)
    ensures Advances(s, ApplyQso(s, site, q))
  {
    var first := Upsert(s, ActivatorTouch(site, q));
    UpsertAdvances(s, ActivatorTouch(site, q));
    if q.hunterId.Some? {
      UpsertAdvances(first, HunterTouch(site, q));
      AdvancesChain(s, first, ApplyQso(s, site, q));
    }
  }

  lemma {:induction false} ApplyQsosAdvances(s: Subjects, site: Site, qsos: map<string, Qso>, keys: seq<string>)
    requires SideTablesLead(s) && forall d | d in keys :: d in qsos
    ensures Advances(s, ApplyQsos(s, site, qsos, keys))
    decreases |keys|
  {
    if keys != [] {
      var next := ApplyQso(s, site, qsos[keys[0]]);
      ApplyQsoAdvances(s, site, qsos[keys[0]]);
      ApplyQsosAdvances(next, site, qsos, keys[1..]);
      AdvancesChain(s, next, ApplyQsos(s, site, qsos, keys));
    }
  }

  lemma StepAdvances(t: Tables, op: Op)
    requires SideTablesLead(t.subjects) && !op.OpCascade?
    ensures Advances(t.subjects, Step(t, op).subjects)
  {
    match op
    case OpCreate(aid, site, _, _) =>
      UpsertAdvances(t.subjects, Touch(SubjectKey(site.programme, site.operatorId, ACTIVATOR), 0, 1, None, Some(site.entityId)));
    case OpInsert(aid, r) =>
      if aid in t.ledger.activations {
        ApplyQsoAdvances(t.subjects, t.ledger.activations[aid].site, ToQso(aid, t.ledger.activations[aid].site, r));
      }
    case OpBatch(aid, rs) =>
      if aid in t.ledger.activations {
        var site := t.ledger.activations[aid].site;
        ApplyQsosAdvances(t.subjects, site, StoreRows(t.ledger.qsos, aid, site, rs), StoredKeys(t.ledger.qsos, aid, site, rs));
      }
    case _ =>
  }

  lemma {:induction false} RunAdvances(t: Tables, ops: seq<Op>)
    requires SideTablesLead(t.subjects) && NoCascade(ops)
    ensures Advances(t.subjects, Run(t, ops).subjects)
    decreases |ops|
  {
    if ops != [] {
      StepAdvances(t, ops[0]);
      RunAdvances(Step(t, ops[0]), ops[1..]);
      AdvancesChain(t.subjects, Step(t, ops[0]).subjects, Run(t, ops).subjects);
    }
  }

  lemma AdvancingRaisesFacts(s: Subjects, r: Subjects, k: SubjectKey, before: Value, after: Value)
    requires Advances(s, r)
    ensures Raised(SubjectFacts(s, k, before), SubjectFacts(r, k, after))
  {
    assert NoLess(Row(s, k), Row(r, k));
  }

  /** Where the side tables lead, and no entity is cascaded, a level is never lost. */
  lemma QualifiedStays(t: Tables, ops: seq<Op>, award: Award, subject: Id, i: nat, before: Value, after: Value)
    requires SideTablesLead(t.subjects) && NoCascade(ops)
    requires CountsUp(award)
    requires Qualifies(award, SubjectFacts(t.subjects, KeyOf(award, subject), before), i)
    ensures Qualifies(award, SubjectFacts(Run(t, ops).subjects, KeyOf(award, subject), after), i)
  {
    RunAdvances(t, ops);
    AdvancingRaisesFacts(t.subjects, Run(t, ops).subjects, KeyOf(award, subject), before, after);
    LevelsAreMonotone(award, SubjectFacts(t.subjects, KeyOf(award, subject), before),
                      SubjectFacts(Run(t, ops).subjects, KeyOf(award, subject), after), i);
  }

  lemma FreshTablesLead()
    ensures SideTablesLead(EMPTY.subjects)
  {
    forall k ensures Leads(SubjectView(EMPTY.subjects, k)) {
    }
  }

  /** In every run without a cascade, from empty tables, no distinct count is above what
      its side table lists. */
  lemma RunsLead(ops: seq<Op>)
    requires NoCascade(ops)
    ensures SideTablesLead(Run(EMPTY, ops).subjects)
  {
    FreshTablesLead();
    RunAdvances(EMPTY, ops);
  }

  lemma {:induction false} RunsJoin(t: Tables, first: seq<Op>, second: seq<Op>)
    ensures Run(t, first + second) == Run(Run(t, first), second)
    decreases |first|
  {
    if first == [] {
      assert first + second == second;
    } else {
      assert (first + second)[1..] == first[1..] + second;
      RunsJoin(Step(t, first[0]), first[1..], second);
    }
  }

  /** In every run without a cascade a subject never loses a level it has reached in an
      award that counts upward, whatever is recorded afterwards. */
  lemma QualifiedStaysQualified(ops: seq<Op>, more: seq<Op>, award: Award, subject: Id, i: nat, before: Value, after: Value)
    requires NoCascade(ops) && NoCascade(more) && CountsUp(award)
    requires Qualifies(award, SubjectFacts(Run(EMPTY, ops).subjects, KeyOf(award, subject), before), i)
    ensures Qualifies(award, SubjectFacts(Run(EMPTY, ops + more).subjects, KeyOf(award, subject), after), i)
  {
    RunsLead(ops);
    QualifiedStays(Run(EMPTY, ops), more, award, subject, i, before, after);
    RunsJoin(EMPTY, ops, more);
  }

  /** An award for working a number of entities. */
  function EntityAward(id: Id, programme: Id, category: Category, n: int): Award {
    Award(id, 1, programme, category, true, Count(UniqueEntities, "GTE", CountValue(1)), Some("UNIQUE_ENTITIES"),
          Some([Level(id, CountValue(n))]))
  }

  /** What the next upsert of a subject does to a level it has just reached: the level is
      kept exactly when the side table, with the new entity, lists that many entities.
      After a cascade it may list fewer, and recording more activity loses the level. */
  lemma LevelSurvivesUpsert(s: Subjects, t: Touch, id: Id, n: int, before: Value, after: Value)
    requires Row(s, t.key).uniqueEntities == n >= 1
    ensures var award := EntityAward(id, t.key.programme, t.key.category, n);
      && Qualifies(award, SubjectFacts(s, t.key, before), 0)
      && (Qualifies(award, SubjectFacts(Upsert(s, t), t.key, after), 0) <==>
          n <= |With(Section(s.entities, t.key), t.entityId)|)
  {
    UpsertChangesOneView(s, t, t.key);
    EntityLevel(s, t.key, id, n, before);
    EntityLevel(Upsert(s, t), t.key, id, n, after);
  }

  lemma EntityLevel(s: Subjects, k: SubjectKey, id: Id, n: int, entityType: Value)
    requires n >= 1
    ensures Qualifies(EntityAward(id, k.programme, k.category, n), SubjectFacts(s, k, entityType), 0) <==>
            n <= Row(s, k).uniqueEntities
  {
    var award, facts := EntityAward(id, k.programme, k.category, n), SubjectFacts(s, k, entityType);
    var met := Evaluate(award.condition, facts).value;
    var count := Row(s, k).uniqueEntities as real;
    NumericStandings(award.levels.value, met, count);
    StandingsAt(award.levels.value, met, count, 0);
  }
}
