/** Award conditions, and the three places that evaluate them. */
module Awards {
  import opened Wrappers
  import opened Ledger
  import opened Aggregates

  /** A JSON value as the evaluators see it: its text, and its number if it has one. */
  datatype Value = Value(text: string, number: Option<real>)

  type Facts = map<string, Value>

  datatype Metric = QsoCount | ActivationCount | UniqueCallsigns | UniqueEntities

  /** Kinds and operators are compared in upper case; an operator is kept as written. */
  datatype Condition =
    | All(children: seq<Condition>)
    | Any(children: seq<Condition>)
    | Not(child: Condition)
    | Count(metric: Metric, operator: string, value: Value)
    | Field(field: string, operator: string, value: Value)
    | EntityType(values: set<string>)
    | Unsupported(kind: string)

  datatype EvaluationError = UnsupportedKind | NotNumeric | MissingLevels

  function FieldOf(m: Metric): string {
    match m
    case QsoCount => "qsoCount"
    case ActivationCount => "activationCount"
    case UniqueCallsigns => "uniqueCallsignCount"
    case UniqueEntities => "uniqueEntityCount"
  }

  function Fact(facts: Facts, field: string): Value {
    if field in facts then facts[field] else Value("0", Some(0.0))
  }

  /** An unknown operator is not an error: it is never satisfied. */
  predicate Operator(actual: real, operator: string, expected: real) {
    match operator
    case "GTE" => actual >= expected
    case "GT" => actual > expected
    case "EQ" => actual == expected
    case "LTE" => actual <= expected
    case "LT" => actual < expected
    case _ => false
  }

  function Compare(actual: Value, operator: string, expected: Value): Result<bool, EvaluationError> {
    if actual.number.None? || expected.number.None? then Failure(NotNumeric)
    else Success(Operator(actual.number.value, operator, expected.number.value))
  }

  function Width(c: Condition): nat {
    if c.All? || c.Any? then |c.children| else 0
  }

  function Evaluate(c: Condition, facts: Facts): Result<bool, EvaluationError>
    decreases c, Width(c) + 1
  {
    match c
    case All(children) => if children == [] then Success(false) else EvaluateAll(c, facts, 0)
    case Any(children) => if children == [] then Success(false) else EvaluateAny(c, facts, 0)
    case Not(child) =>
      var r := Evaluate(child, facts);
      if r.Success? then Success(!r.value) else r
    case Count(metric, operator, value) => Compare(Fact(facts, FieldOf(metric)), operator, value)
    case Field(field, operator, value) => Compare(Fact(facts, field), operator, value)
    case EntityType(values) =>
      Success((if "entityType" in facts then facts["entityType"].text else "") in values)
    case Unsupported(_) => Failure(UnsupportedKind)
  }

  /** Children from index i on; stops at the first false one or the first error. */
  function EvaluateAll(c: Condition, facts: Facts, i: nat): Result<bool, EvaluationError>
    requires c.All? && i <= |c.children|
    decreases c, |c.children| - i
  {
    if i == |c.children| then Success(true)
    else
      var r := Evaluate(c.children[i], facts);
      if r == Success(true) then EvaluateAll(c, facts, i + 1) else r
  }

  function EvaluateAny(c: Condition, facts: Facts, i: nat): Result<bool, EvaluationError>
    requires c.Any? && i <= |c.children|
    decreases c, |c.children| - i
  {
    if i == |c.children| then Success(false)
    else
      var r := Evaluate(c.children[i], facts);
      if r == Success(false) then EvaluateAny(c, facts, i + 1) else r
  }

  // ------------------------------------------------ what a condition means

  /** Every leaf can be evaluated. */
  ghost predicate Supported(c: Condition, facts: Facts) {
    match c
    case All(children) => forall i :: 0 <= i < |children| ==> Supported(children[i], facts)
    case Any(children) => forall i :: 0 <= i < |children| ==> Supported(children[i], facts)
    case Not(child) => Supported(child, facts)
    case Count(metric, _, value) => CountOf(facts, metric).number.Some? && value.number.Some?
    case Field(field, _, value) => (field in facts ==> facts[field].number.Some?) && value.number.Some?
    case EntityType(_) => true
    case Unsupported(_) => false
  }

  /** What a comparison asks for, in terms of order and equality alone. */
  ghost predicate Satisfied(actual: real, operator: string, expected: real) {
    || (operator == "GTE" && !(actual < expected))
    || (operator == "GT" && expected < actual)
    || (operator == "EQ" && actual == expected)
    || (operator == "LTE" && !(expected < actual))
    || (operator == "LT" && actual < expected)
  }

  /** The five comparisons hang together, and no other is ever met. */
  lemma OperatorLaws(actual: real, operator: string, expected: real)
    ensures Operator(actual, operator, expected) <==> Satisfied(actual, operator, expected)
    ensures Operator(actual, "EQ", expected) <==> actual == expected
    ensures Operator(actual, "GTE", expected) <==> Operator(actual, "GT", expected) || actual == expected
    ensures Operator(actual, "LTE", expected) <==> Operator(actual, "LT", expected) || actual == expected
    ensures Operator(actual, "LT", expected) <==> Operator(expected, "GT", actual)
    ensures !(Operator(actual, "LT", expected) && Operator(actual, "GT", expected))
    ensures actual != expected ==> Operator(actual, "LT", expected) || Operator(actual, "GT", expected)
    ensures operator !in {"GTE", "GT", "EQ", "LTE", "LT"} ==> !Operator(actual, operator, expected)
  {
  }

  /** The column of the statistics that a metric counts. */
  ghost function CountOf(facts: Facts, metric: Metric): Value {
    match metric
    case QsoCount => if "qsoCount" in facts then facts["qsoCount"] else Value("0", Some(0.0))
    case ActivationCount => if "activationCount" in facts then facts["activationCount"] else Value("0", Some(0.0))
    case UniqueCallsigns => if "uniqueCallsignCount" in facts then facts["uniqueCallsignCount"] else Value("0", Some(0.0))
    case UniqueEntities => if "uniqueEntityCount" in facts then facts["uniqueEntityCount"] else Value("0", Some(0.0))
  }

  /** The meaning of a condition, without any order of evaluation; empty groups are false. */
  ghost predicate Holds(c: Condition, facts: Facts)
    requires Supported(c, facts)
  {
    match c
    case All(children) => children != [] && forall i :: 0 <= i < |children| ==> Holds(children[i], facts)
    case Any(children) => exists i :: 0 <= i < |children| && Holds(children[i], facts)
    case Not(child) => !Holds(child, facts)
    case Count(metric, operator, value) => Satisfied(CountOf(facts, metric).number.value, operator, value.number.value)
    case Field(field, operator, value) =>
      Satisfied(if field in facts then facts[field].number.value else 0.0, operator, value.number.value)
    case EntityType(values) => (if "entityType" in facts then facts["entityType"].text else "") in values
  }

  /** A supported condition evaluates to its meaning, and never fails. */
  lemma {:induction false} EvaluateIsHolds(c: Condition, facts: Facts)
    requires Supported(c, facts)
    ensures Evaluate(c, facts) == Success(Holds(c, facts))
    decreases c, Width(c) + 1
  {
    match c
    case All(children) => if children != [] { AllIsHolds(c, facts, 0); }
    case Any(children) => if children != [] { AnyIsHolds(c, facts, 0); }
    case Not(child) => EvaluateIsHolds(child, facts);
    case _ =>
  }

  lemma {:induction false} AllIsHolds(c: Condition, facts: Facts, i: nat)
    requires c.All? && i <= |c.children| && Supported(c, facts)
    ensures EvaluateAll(c, facts, i) == Success(forall j :: i <= j < |c.children| ==> Holds(c.children[j], facts))
    decreases c, |c.children| - i
  {
    if i < |c.children| {
      EvaluateIsHolds(c.children[i], facts);
      AllIsHolds(c, facts, i + 1);
    }
  }

  lemma {:induction false} AnyIsHolds(c: Condition, facts: Facts, i: nat)
    requires c.Any? && i <= |c.children| && Supported(c, facts)
    ensures EvaluateAny(c, facts, i) == Success(exists j :: i <= j < |c.children| && Holds(c.children[j], facts))
    decreases c, |c.children| - i
  {
    if i < |c.children| {
      EvaluateIsHolds(c.children[i], facts);
      AnyIsHolds(c, facts, i + 1);
    }
  }

  // ------------------------------------------------ raising counts

  predicate IsCountField(field: string) {
    field in {FieldOf(QsoCount), FieldOf(ActivationCount), FieldOf(UniqueCallsigns), FieldOf(UniqueEntities)}
  }

  /** Operators whose outcome can only change one way when the count goes up; an unknown
      operator is never satisfied, so it changes in neither. */
  predicate Directed(operator: string, up: bool) {
    operator !in {"GTE", "GT", "EQ", "LTE", "LT"} || operator in (if up then {"GTE", "GT"} else {"LTE", "LT"})
  }

  /** Every leaf compares a count, in the given direction under an even number of NOTs and
      in the other one under an odd number. */
  ghost predicate Polar(c: Condition, up: bool) {
    match c
    case All(children) => forall i :: 0 <= i < |children| ==> Polar(children[i], up)
    case Any(children) => forall i :: 0 <= i < |children| ==> Polar(children[i], up)
    case Not(child) => Polar(child, !up)
    case Count(_, operator, value) => Directed(operator, up) && value.number.Some?
    case Field(field, operator, value) => IsCountField(field) && Directed(operator, up) && value.number.Some?
    case _ => false
  }

  ghost predicate Counted(facts: Facts) {
    forall field | IsCountField(field) :: Fact(facts, field).number.Some?
  }

  /** Every count of `more` is at least that of `facts`. */
  ghost predicate Raised(facts: Facts, more: Facts) {
    && Counted(facts) && Counted(more)
    && forall field | IsCountField(field) :: Fact(facts, field).number.value <= Fact(more, field).number.value
  }

  lemma {:induction false} PolarIsSupported(c: Condition, up: bool, facts: Facts)
    requires Polar(c, up) && Counted(facts)
    ensures Supported(c, facts)
  {
    match c
    case All(children) =>
      forall i | 0 <= i < |children| ensures Supported(children[i], facts) {
        PolarIsSupported(children[i], up, facts);
      }
    case Any(children) =>
      forall i | 0 <= i < |children| ensures Supported(children[i], facts) {
        PolarIsSupported(children[i], up, facts);
      }
    case Not(child) => PolarIsSupported(child, !up, facts);
    case Count(metric, _, _) => assert IsCountField(FieldOf(metric));
    case _ =>
  }

  lemma DirectedIsMonotone(less: real, more: real, operator: string, up: bool, expected: real)
    requires less <= more && Directed(operator, up)
    ensures up && Operator(less, operator, expected) ==> Operator(more, operator, expected)
    ensures !up && Operator(more, operator, expected) ==> Operator(less, operator, expected)
  {
  }

  /** Raising the count from `less` to `more` loses the comparison, or gains it. */
  predicate Turns(operator: string, up: bool, less: real, more: real, expected: real) {
    && less <= more
    && (if up then Operator(less, operator, expected) && !Operator(more, operator, expected)
        else Operator(more, operator, expected) && !Operator(less, operator, expected))
  }

  lemma UndirectedTurns(operator: string, up: bool) returns (expected: real)
    requires !Directed(operator, up)
    ensures Turns(operator, up, 0.0, 1.0, expected)
  {
    if up {
      expected := if operator == "LT" then 1.0 else 0.0;
    } else {
      expected := if operator == "GT" then 0.0 else 1.0;
    }
  }

  /** A comparison is never lost, or never gained, by raising the count exactly if its
      operator looks in that direction. */
  lemma NeverTurnsIffDirected(operator: string, up: bool)
    ensures (forall less, more, expected :: !Turns(operator, up, less, more, expected)) <==> Directed(operator, up)
  {
    if !Directed(operator, up) {
      var expected := UndirectedTurns(operator, up);
    }
  }

  lemma LeafIsMonotone(field: string, operator: string, value: Value, up: bool, facts: Facts, more: Facts)
    requires IsCountField(field) && Raised(facts, more) && Directed(operator, up) && value.number.Some?
    ensures var less, later, expected := Fact(facts, field).number.value, Fact(more, field).number.value, value.number.value;
      && (up && Operator(less, operator, expected) ==> Operator(later, operator, expected))
      && (!up && Operator(later, operator, expected) ==> Operator(less, operator, expected))
  {
    DirectedIsMonotone(Fact(facts, field).number.value, Fact(more, field).number.value, operator, up, value.number.value);
  }

  lemma {:induction false} HoldsIsMonotone(c: Condition, up: bool, facts: Facts, more: Facts)
    requires Polar(c, up) && Raised(facts, more) && Supported(c, facts) && Supported(c, more)
    ensures up && Holds(c, facts) ==> Holds(c, more)
    ensures !up && Holds(c, more) ==> Holds(c, facts)
  {
    match c
    case All(children) =>
      forall i | 0 <= i < |children|
        ensures up && Holds(children[i], facts) ==> Holds(children[i], more)
        ensures !up && Holds(children[i], more) ==> Holds(children[i], facts)
      {
        HoldsIsMonotone(children[i], up, facts, more);
      }
    case Any(children) =>
      forall i | 0 <= i < |children|
        ensures up && Holds(children[i], facts) ==> Holds(children[i], more)
        ensures !up && Holds(children[i], more) ==> Holds(children[i], facts)
      {
        HoldsIsMonotone(children[i], up, facts, more);
      }
    case Not(child) => HoldsIsMonotone(child, !up, facts, more);
    case Count(metric, operator, value) => LeafIsMonotone(FieldOf(metric), operator, value, up, facts, more);
    case Field(field, operator, value) => LeafIsMonotone(field, operator, value, up, facts, more);
  }

  /** Raising counts never loses a condition that looks upward, and never gains one that
      looks downward; NOT turns one into the other. */
  lemma EvaluateIsMonotone(c: Condition, up: bool, facts: Facts, more: Facts)
    requires Polar(c, up) && Raised(facts, more)
    ensures Evaluate(c, facts).Success? && Evaluate(c, more).Success?
    ensures up && Evaluate(c, facts).value ==> Evaluate(c, more).value
    ensures !up && Evaluate(c, more).value ==> Evaluate(c, facts).value
  {
    PolarIsSupported(c, up, facts);
    PolarIsSupported(c, up, more);
    EvaluateIsHolds(c, facts);
    EvaluateIsHolds(c, more);
    HoldsIsMonotone(c, up, facts, more);
  }

  function Number(n: real): Value {
    Value("", Some(n))
  }

  /** Under NOT, and behind a condition that used to stop the evaluation, raising a count
      does lose eligibility. */
  lemma RaisingCanLose(facts: Facts, more: Facts)
    requires Raised(facts, more)
    requires Fact(facts, "qsoCount").number == Some(0.0) && Fact(more, "qsoCount").number == Some(1.0)
    ensures var reached := Count(QsoCount, "GTE", Number(1.0));
      && Evaluate(Not(reached), facts) == Success(true)
      && Evaluate(Not(reached), more) == Success(false)
    ensures var reached, always := Count(QsoCount, "GTE", Number(1.0)), Count(QsoCount, "GTE", Number(0.0));
      var guarded := Any([All([reached, Unsupported("")]), always]);
      && Evaluate(guarded, facts) == Success(true)
      && Evaluate(guarded, more).Failure?
  {
    var reached, always := Count(QsoCount, "GTE", Number(1.0)), Count(QsoCount, "GTE", Number(0.0));
    var inner := All([reached, Unsupported("")]);
    var guarded := Any([inner, always]);
    assert Evaluate(reached, facts) == Success(false) && Evaluate(reached, more) == Success(true);
    assert Evaluate(inner, facts) == EvaluateAll(inner, facts, 0) == Success(false);
    assert EvaluateAll(inner, more, 1) == Failure(UnsupportedKind);
    assert EvaluateAny(guarded, facts, 1) == Success(true);
    assert EvaluateAll(inner, more, 0) == EvaluateAll(inner, more, 1);
    assert Evaluate(inner, more) == EvaluateAll(inner, more, 0);
    assert EvaluateAny(guarded, more, 0) == Failure(UnsupportedKind);
  }

  // ------------------------------------------------ levels

  datatype Level = Level(id: Id, threshold: Value)

  datatype Award = Award(
    id: Id,
    version: int,
    programme: Id,
    category: Category,
    published: bool,
    condition: Condition,
    metric: Option<string>,
    levels: Option<seq<Level>>)

  datatype Standing = Standing(level: Level, eligible: bool)

  datatype Evaluation = Evaluation(conditionMet: bool, progress: real, levels: seq<Standing>)

  function MetricField(metric: string): string {
    match metric
    case "QSO_COUNT" => "qsoCount"
    case "UNIQUE_CALLSIGNS" => "uniqueCallsignCount"
    case "UNIQUE_ENTITIES" => "uniqueEntityCount"
    case "ACTIVATION_COUNT" => "activationCount"
    case _ => metric
  }

  /** The codes name the counts; any other metric names its own field. */
  lemma MetricFieldIs(metric: string, facts: Facts)
    ensures Fact(facts, MetricField("QSO_COUNT")) == CountOf(facts, QsoCount)
    ensures Fact(facts, MetricField("ACTIVATION_COUNT")) == CountOf(facts, ActivationCount)
    ensures Fact(facts, MetricField("UNIQUE_CALLSIGNS")) == CountOf(facts, UniqueCallsigns)
    ensures Fact(facts, MetricField("UNIQUE_ENTITIES")) == CountOf(facts, UniqueEntities)
    ensures metric !in {"QSO_COUNT", "ACTIVATION_COUNT", "UNIQUE_CALLSIGNS", "UNIQUE_ENTITIES"} ==> MetricField(metric) == metric
  {
  }

  /** A threshold is only read when the condition is met. */
  function Standings(levels: seq<Level>, met: bool, progress: real): Result<seq<Standing>, EvaluationError> {
    if levels == [] then Success([])
    else if met && levels[0].threshold.number.None? then Failure(NotNumeric)
    else
      var rest := Standings(levels[1..], met, progress);
      if rest.Failure? then rest
      else Success([Standing(levels[0], met && progress >= levels[0].threshold.number.value)] + rest.value)
  }

  /** The evaluation the API offers. */
  function ApiEvaluation(award: Award, facts: Facts): Result<Evaluation, EvaluationError> {
    var met := Evaluate(award.condition, facts);
    if met.Failure? then Failure(met.error)
    else
      var metric := if award.metric.Some? then award.metric.value else "QSO_COUNT";
      var progress := Fact(facts, MetricField(metric)).number;
      if progress.None? then Failure(NotNumeric)
      else if award.levels.None? then Failure(MissingLevels)
      else
        var levels := Standings(award.levels.value, met.value, progress.value);
        if levels.Failure? then Failure(levels.error)
        else Success(Evaluation(met.value, progress.value, levels.value))
  }

  lemma {:induction false} StandingsAt(levels: seq<Level>, met: bool, progress: real, i: nat)
    requires Standings(levels, met, progress).Success? && i < |levels|
    ensures var r := Standings(levels, met, progress).value;
      && |r| == |levels| && r[i].level == levels[i]
      && (r[i].eligible <==> met && levels[i].threshold.number.Some? && progress >= levels[i].threshold.number.value)
    decreases |levels|
  {
    if i > 0 {
      StandingsAt(levels[1..], met, progress, i - 1);
    } else if |levels| > 1 {
      StandingsAt(levels[1..], met, progress, 0);
    }
  }

  /** What an evaluation says, field by field, of an award whose condition can be read and
      whose metric is a count: whether the condition holds, the count of the metric, and
      for each level in order whether the condition holds and the count has reached it. */
  lemma EvaluationMeans(award: Award, facts: Facts, m: Metric)
    requires Supported(award.condition, facts) && CountOf(facts, m).number.Some? && award.levels.Some?
    requires award.metric == Some(CodeOf(m)) || (award.metric.None? && m == QsoCount)
    requires forall i :: 0 <= i < |award.levels.value| ==> award.levels.value[i].threshold.number.Some?
    ensures var levels, r := award.levels.value, ApiEvaluation(award, facts);
      && r.Success?
      && r.value.conditionMet == Holds(award.condition, facts)
      && r.value.progress == CountOf(facts, m).number.value
      && |r.value.levels| == |levels|
      && forall i :: 0 <= i < |levels| ==>
           r.value.levels[i].level == levels[i] &&
           (r.value.levels[i].eligible <==>
            Holds(award.condition, facts) && levels[i].threshold.number.value <= CountOf(facts, m).number.value)
  {
    EvaluateIsHolds(award.condition, facts);
    MetricFieldIs("", facts);
    var levels, met, progress := award.levels.value, Holds(award.condition, facts), CountOf(facts, m).number.value;
    NumericStandings(levels, met, progress);
    forall i | 0 <= i < |levels|
      ensures var r := Standings(levels, met, progress).value;
        r[i].level == levels[i] && (r[i].eligible <==> met && levels[i].threshold.number.value <= progress)
    {
      StandingsAt(levels, met, progress, i);
    }
  }

  ghost function CodeOf(m: Metric): string {
    match m
    case QsoCount => "QSO_COUNT"
    case ActivationCount => "ACTIVATION_COUNT"
    case UniqueCallsigns => "UNIQUE_CALLSIGNS"
    case UniqueEntities => "UNIQUE_ENTITIES"
  }

  /** An award counts upward: an upward condition and a count as its metric. */
  ghost predicate CountsUp(award: Award) {
    && Polar(award.condition, true)
    && (award.metric.Some? ==> IsCountField(MetricField(award.metric.value)))
    && award.levels.Some?
    && forall i :: 0 <= i < |award.levels.value| ==> award.levels.value[i].threshold.number.Some?
  }

  ghost predicate Qualifies(award: Award, facts: Facts, i: nat) {
    var r := ApiEvaluation(award, facts);
    r.Success? && i < |r.value.levels| && r.value.levels[i].eligible
  }

  lemma {:induction false} NumericStandings(levels: seq<Level>, met: bool, progress: real)
    requires forall i :: 0 <= i < |levels| ==> levels[i].threshold.number.Some?
    ensures Standings(levels, met, progress).Success? && |Standings(levels, met, progress).value| == |levels|
    decreases |levels|
  {
    if levels != [] {
      assert forall i :: 0 <= i < |levels[1..]| ==> levels[1..][i] == levels[i + 1];
      NumericStandings(levels[1..], met, progress);
    }
  }

  /** Raising counts never loses a level of such an award. */
  lemma LevelsAreMonotone(award: Award, facts: Facts, more: Facts, i: nat)
    requires CountsUp(award) && Raised(facts, more) && Qualifies(award, facts, i)
    ensures Qualifies(award, more, i)
  {
    var before := ApiEvaluation(award, facts).value;
    var field := MetricField(if award.metric.Some? then award.metric.value else "QSO_COUNT");
    assert IsCountField(field);
    var levels, progress := award.levels.value, Fact(more, field).number.value;
    NumericStandings(levels, before.conditionMet, before.progress);
    StandingsAt(levels, before.conditionMet, before.progress, i);
    EvaluateIsMonotone(award.condition, true, facts, more);
    NumericStandings(levels, true, progress);
    StandingsAt(levels, true, progress, i);
  }
}
