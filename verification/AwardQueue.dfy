/** The award jobs that recorded activity queues, and whose awards they recalculate.

    A job is looked up by its idempotency key, and a known key keeps the job it has, even a
    finished one. Jobs are seen through one published award: handling one walks through its
    subjects and recalculates the award for each. */
module AwardQueue {
  import opened Wrappers
  import opened Ledger
  import opened Aggregates
  import opened Batches
  import opened Cascades

  /** Keys: a QSO row and its id, a batch and its first record, a cascade, or a request. */
  datatype JobKey =
    | OfQso(row: nat)
    | OfBatch(activation: Id, first: string)
    | OfCascade(entity: Id, programme: Id)
    | OfRequest(text: string)

  /** Queued, or failed and open to a redrive; handled, with the subjects still to do; or done for good. */
  datatype Phase = Waiting | Handled(left: set<Id>) | Done

  datatype AwardJob = AwardJob(programme: Id, subjects: set<Id>, phase: Phase)

  type Jobs = map<JobKey, AwardJob>

  // ------------------------------------------------ what a transaction queues

  function Hunters(rs: seq<Record>): set<Id> {
    set r | r in rs && r.hunterId.Some? :: r.hunterId.value
  }

  function HunterSet(hunterId: Option<Id>): set<Id> {
    if hunterId.Some? then {hunterId.value} else {}
  }

  function Programmes(l: Ledger, at: set<Id>, keys: set<string>): set<Id>
    requires at <= l.activations.Keys && keys <= l.qsos.Keys
  {
    (set a | a in at :: l.activations[a].site.programme) + (set d | d in keys :: l.qsos[d].programme)
  }

  /** The jobs a cascade offers, one for each programme with a name. */
  function CascadeOffers(e: Id, programmes: set<Id>, subjects: set<Id>): Jobs {
    map p | p in programmes && p != "" :: OfCascade(e, p) := AwardJob(p, subjects, Waiting)
  }

  predicate StoresQso(t: Tables, aid: Id, r: Record) {
    InsertQso(t, aid, r).Success? && r.deduplicationKey !in t.ledger.qsos
  }

  predicate StoresRows(t: Tables, aid: Id, rs: seq<Record>) {
    InsertBatch(t, aid, rs).Success? && StoredKeys(t.ledger.qsos, aid, t.ledger.activations[aid].site, rs) != []
  }

  /** The jobs a transaction offers when `recorded` QSO rows have been written so far. */
  function Offers(recorded: nat, t: Tables, op: Op): Jobs {
    match op
    case OpInsert(aid, r) =>
      if StoresQso(t, aid, r) then
        var site := t.ledger.activations[aid].site;
        map[OfQso(recorded) := AwardJob(site.programme, {site.operatorId} + HunterSet(r.hunterId), Waiting)]
      else map[]
    case OpBatch(aid, rs) =>
      if rs != [] && StoresRows(t, aid, rs) then
        var site := t.ledger.activations[aid].site;
        map[OfBatch(aid, rs[0].deduplicationKey) := AwardJob(site.programme, {site.operatorId} + Hunters(rs), Waiting)]
      else map[]
    case OpCascade(e) =>
      CascadeOffers(e, Programmes(t.ledger, ActivationsAt(t.ledger, e), Doomed(t.ledger, e)), Collected(t.ledger, e))
    case _ => map[]
  }

  /** A known key keeps the job it has. */
  function Offered(jobs: Jobs, offers: Jobs): Jobs {
    offers + jobs
  }

  function RowsWritten(t: Tables, op: Op): nat {
    match op
    case OpInsert(aid, r) => if StoresQso(t, aid, r) then 1 else 0
    case OpBatch(aid, rs) =>
      if InsertBatch(t, aid, rs).Success? then |StoredKeys(t.ledger.qsos, aid, t.ledger.activations[aid].site, rs)| else 0
    case _ => 0
  }

  // ------------------------------------------------ the queue as a transition system

  datatype State = State(tables: Tables, jobs: Jobs, recorded: nat)

  const START := State(EMPTY, map[], 0)

  datatype Event =
    | Records(op: Op)
    | Requests(text: string, programme: Id, subjects: set<Id>)
    | Begins(key: JobKey)  // a claim, the first or after a lost lease
    | Computes(key: JobKey, subject: Id)
    | Completes(key: JobKey)
    | GivesBack(key: JobKey)

  predicate IsHandled(s: State, k: JobKey) {
    k in s.jobs && s.jobs[k].phase.Handled?
  }

  function WithPhase(s: State, k: JobKey, phase: Phase): State
    requires k in s.jobs
  {
    s.(jobs := s.jobs[k := s.jobs[k].(phase := phase)])
  }

  /** An event that is not enabled changes nothing. */
  function After(s: State, event: Event): State {
    match event
    case Records(op) =>
      State(Step(s.tables, op), Offered(s.jobs, Offers(s.recorded, s.tables, op)), s.recorded + RowsWritten(s.tables, op))
    case Requests(text, programme, subjects) =>
      s.(jobs := Offered(s.jobs, map[OfRequest(text) := AwardJob(programme, subjects, Waiting)]))
    case Begins(k) =>
      if k in s.jobs && !s.jobs[k].phase.Done? then WithPhase(s, k, Handled(s.jobs[k].subjects)) else s
    case Computes(k, x) =>
      if IsHandled(s, k) && x in s.jobs[k].phase.left then WithPhase(s, k, Handled(s.jobs[k].phase.left - {x})) else s
    case Completes(k) => if IsHandled(s, k) && s.jobs[k].phase.left == {} then WithPhase(s, k, Done) else s
    case GivesBack(k) => if IsHandled(s, k) then WithPhase(s, k, Waiting) else s
  }

  function AfterAll(s: State, events: seq<Event>): State
    decreases |events|
  {
    if events == [] then s else AfterAll(After(s, events[0]), events[1..])
  }

  lemma {:induction false} AfterJoin(s: State, first: seq<Event>, second: seq<Event>)
    ensures AfterAll(s, first + second) == AfterAll(AfterAll(s, first), second)
    decreases |first|
  {
    if first == [] {
      assert first + second == second;
    } else {
      assert (first + second)[1..] == first[1..] + second;
      AfterJoin(After(s, first[0]), first[1..], second);
    }
  }

  lemma AfterOne(s: State, event: Event)
    ensures AfterAll(s, [event]) == After(s, event)
  {
    assert [event][1..] == [];
    assert AfterAll(After(s, event), []) == After(s, event);
  }

  // ------------------------------------------------ when everybody is reached

  /** The event recalculates the award of programme p for subject x. */
  ghost predicate Serves(s: State, event: Event, p: Id, x: Id) {
    && event.Computes? && event.subject == x
    && IsHandled(s, event.key) && x in s.jobs[event.key].phase.left
    && s.jobs[event.key].programme == p
  }

  ghost predicate RunServes(s: State, events: seq<Event>, p: Id, x: Id)
    decreases |events|
  {
    events != [] && (Serves(s, events[0], p, x) || RunServes(After(s, events[0]), events[1..], p, x))
  }

  predicate OfWorker(event: Event) {
    !event.Records? && !event.Requests?
  }

  ghost predicate AllDone(jobs: Jobs) {
    forall k | k in jobs :: jobs[k].phase.Done?
  }

  /** Workers alone handle every job to its end. */
  ghost predicate Drains(s: State, events: seq<Event>) {
    (forall event | event in events :: OfWorker(event)) && AllDone(AfterAll(s, events).jobs)
  }

  /** However the queue is drained, the subject's award is recalculated. */
  ghost predicate AlwaysServed(s: State, p: Id, x: Id) {
    forall events | Drains(s, events) :: RunServes(s, events, p, x)
  }

  /** The job still has the subject before it. */
  predicate Covers(job: AwardJob, p: Id, x: Id) {
    && job.programme == p && x in job.subjects
    && match job.phase case Waiting => true case Handled(left) => x in left case Done => false
  }

  ghost predicate Covered(jobs: Jobs, p: Id, x: Id) {
    exists k :: k in jobs && Covers(jobs[k], p, x)
  }

  /** A job only ever works on its own subjects. */
  ghost predicate Sane(jobs: Jobs) {
    forall k | k in jobs && jobs[k].phase.Handled? :: jobs[k].phase.left <= jobs[k].subjects
  }

  lemma EventKeepsSane(s: State, event: Event)
    requires Sane(s.jobs)
    ensures Sane(After(s, event).jobs)
  {
  }

  lemma {:induction false} RunKeepsSane(s: State, events: seq<Event>)
    requires Sane(s.jobs)
    ensures Sane(AfterAll(s, events).jobs)
    decreases |events|
  {
    if events != [] {
      EventKeepsSane(s, events[0]);
      RunKeepsSane(After(s, events[0]), events[1..]);
    }
  }

  lemma CoverStays(s: State, event: Event, k: JobKey, p: Id, x: Id)
    requires k in s.jobs && Covers(s.jobs[k], p, x) && OfWorker(event) && !Serves(s, event, p, x)
    ensures k in After(s, event).jobs && Covers(After(s, event).jobs[k], p, x)
  {
  }

  lemma {:induction false} CoveredIsServed(s: State, events: seq<Event>, k: JobKey, p: Id, x: Id)
    requires k in s.jobs && Covers(s.jobs[k], p, x) && Drains(s, events)
    ensures RunServes(s, events, p, x)
    decreases |events|
  {
    if events == [] {
      assert false;
    } else if !Serves(s, events[0], p, x) {
      assert events[0] in events;
      CoverStays(s, events[0], k, p, x);
      CoveredIsServed(After(s, events[0]), events[1..], k, p, x);
    }
  }

  lemma {:induction false} ServesJoin(s: State, first: seq<Event>, second: seq<Event>, p: Id, x: Id)
    ensures RunServes(s, first + second, p, x) <==> RunServes(s, first, p, x) || RunServes(AfterAll(s, first), second, p, x)
    decreases |first|
  {
    if first == [] {
      assert first + second == second;
    } else {
      assert (first + second)[0] == first[0] && (first + second)[1..] == first[1..] + second;
      ServesJoin(After(s, first[0]), first[1..], second, p, x);
    }
  }

  lemma ServesOne(s: State, event: Event, p: Id, x: Id)
    ensures RunServes(s, [event], p, x) <==> Serves(s, event, p, x)
  {
    assert [event][1..] == [];
    assert !RunServes(After(s, event), [], p, x);
  }

  /** One event put before a run that serves nobody new. */
  lemma Prepend(s: State, event: Event, rest: seq<Event>, p: Id, x: Id)
    requires !Serves(s, event, p, x) && !RunServes(After(s, event), rest, p, x)
    ensures !RunServes(s, [event] + rest, p, x)
    ensures AfterAll(s, [event] + rest) == AfterAll(After(s, event), rest)
  {
    assert ([event] + rest)[1..] == rest;
  }

  /** Work that finishes job k and touches no other. */
  ghost predicate Finishes(s: State, events: seq<Event>, k: JobKey) {
    && (forall event | event in events :: OfWorker(event))
    && k in s.jobs && AfterAll(s, events) == WithPhase(s, k, Done)
  }

  lemma FinishHandled(s: State, k: JobKey, p: Id, x: Id) returns (events: seq<Event>)
    requires Sane(s.jobs) && IsHandled(s, k) && !Covers(s.jobs[k], p, x)
    ensures Finishes(s, events, k) && !RunServes(s, events, p, x)
    decreases |s.jobs[k].phase.left|
  {
    var left := s.jobs[k].phase.left;
    if left == {} {
      events := [Completes(k)];
      AfterOne(s, Completes(k));
      ServesOne(s, Completes(k), p, x);
    } else {
      var y :| y in left;
      var t := After(s, Computes(k, y));
      EventKeepsSane(s, Computes(k, y));
      var rest := FinishHandled(t, k, p, x);
      Prepend(s, Computes(k, y), rest, p, x);
      events := [Computes(k, y)] + rest;
      assert WithPhase(t, k, Done) == WithPhase(s, k, Done);
    }
  }

  lemma FinishOne(s: State, k: JobKey, p: Id, x: Id) returns (events: seq<Event>)
    requires Sane(s.jobs) && k in s.jobs && !s.jobs[k].phase.Done? && !Covers(s.jobs[k], p, x)
    ensures Finishes(s, events, k) && !RunServes(s, events, p, x)
  {
    if s.jobs[k].phase.Handled? {
      events := FinishHandled(s, k, p, x);
    } else {
      var t := After(s, Begins(k));
      EventKeepsSane(s, Begins(k));
      var rest := FinishHandled(t, k, p, x);
      Prepend(s, Begins(k), rest, p, x);
      events := [Begins(k)] + rest;
      assert WithPhase(t, k, Done) == WithPhase(s, k, Done);
    }
  }

  ghost function Pending(jobs: Jobs): set<JobKey> {
    set k | k in jobs && !jobs[k].phase.Done?
  }

  /** A queue that does not cover the subject can be drained without serving it. */
  lemma DrainWithout(s: State, p: Id, x: Id) returns (events: seq<Event>)
    requires Sane(s.jobs) && !Covered(s.jobs, p, x)
    ensures Drains(s, events) && !RunServes(s, events, p, x)
    decreases |Pending(s.jobs)|
  {
    if Pending(s.jobs) == {} {
      events := [];
      assert forall k | k in s.jobs :: k !in Pending(s.jobs);
    } else {
      var k :| k in Pending(s.jobs);
      var first := FinishOne(s, k, p, x);
      var t := AfterAll(s, first);
      RunKeepsSane(s, first);
      FinishedIsUncovered(s, k, p, x);
      var rest := DrainWithout(t, p, x);
      ServesJoin(s, first, rest, p, x);
      AfterJoin(s, first, rest);
      events := first + rest;
    }
  }

  lemma FinishedIsUncovered(s: State, k: JobKey, p: Id, x: Id)
    requires k in Pending(s.jobs) && !Covered(s.jobs, p, x)
    ensures var t := WithPhase(s, k, Done);
      !Covered(t.jobs, p, x) && |Pending(t.jobs)| < |Pending(s.jobs)|
  {
    var t := WithPhase(s, k, Done);
    assert Pending(t.jobs) == Pending(s.jobs) - {k};
    forall i | i in t.jobs ensures !Covers(t.jobs[i], p, x) {
      if i != k {
        assert !Covers(s.jobs[i], p, x);
      }
    }
  }

  /** In every run: whatever the workers do to drain the queue, they recalculate the
      subject's award if and only if some job still has the subject before it. */
  lemma ServedIffCovered(history: seq<Event>, p: Id, x: Id)
    ensures var s := AfterAll(START, history); AlwaysServed(s, p, x) <==> Covered(s.jobs, p, x)
  {
    var s := AfterAll(START, history);
    RunKeepsSane(START, history);
    if Covered(s.jobs, p, x) {
      var k :| k in s.jobs && Covers(s.jobs[k], p, x);
      forall events | Drains(s, events) ensures RunServes(s, events, p, x) {
        CoveredIsServed(s, events, k, p, x);
      }
    } else {
      var events := DrainWithout(s, p, x);
    }
  }

  // ------------------------------------------------ whose counters a transaction changes

  /** The programmes and subjects whose QSOs or activations a transaction changes. */
  ghost function Touched(t: Tables, op: Op): set<(Id, Id)> {
    match op
    case OpCreate(aid, site, _, _) => if aid in t.ledger.activations then {} else {(site.programme, site.operatorId)}
    case OpInsert(aid, r) =>
      if StoresQso(t, aid, r) then Pairs(t.ledger.activations[aid].site, HunterSet(r.hunterId)) else {}
    case OpBatch(aid, rs) =>
      if StoresRows(t, aid, rs) then Pairs(t.ledger.activations[aid].site, NewHunters(t.ledger.qsos, rs)) else {}
    case OpClose(_, _) => {}
    case OpCascade(e) => CascadePairs(t.ledger, e)
  }

  ghost function Pairs(site: Site, hunters: set<Id>): set<(Id, Id)> {
    {(site.programme, site.operatorId)} + set h | h in hunters :: (site.programme, h)
  }

  /** The hunters of the records whose keys are not stored yet. */
  ghost function NewHunters(qsos: map<string, Qso>, rs: seq<Record>): set<Id> {
    set r | r in rs && r.deduplicationKey !in qsos && r.hunterId.Some? :: r.hunterId.value
  }

  ghost function CascadePairs(l: Ledger, e: Id): set<(Id, Id)> {
    (set a | a in ActivationsAt(l, e) :: (l.activations[a].site.programme, l.activations[a].site.operatorId)) +
    (set d | d in Doomed(l, e) :: (l.qsos[d].programme, l.qsos[d].operatorId)) +
    (set d | d in Doomed(l, e) && l.qsos[d].hunterId.Some? :: (l.qsos[d].programme, l.qsos[d].hunterId.value))
  }

  /** The key under which the transaction would queue a job for the programme is new. */
  ghost predicate KeyIsNew(s: State, op: Op, p: Id) {
    match op
    case OpInsert(_, _) => true
    case OpBatch(aid, rs) => rs != [] && OfBatch(aid, rs[0].deduplicationKey) !in s.jobs
    case OpCascade(e) => p != "" && OfCascade(e, p) !in s.jobs
    case _ => false
  }

  /** Row ids are not used twice. */
  ghost predicate RowsAreFresh(s: State) {
    forall n: nat | OfQso(n) in s.jobs :: n < s.recorded
  }

  lemma EventKeepsFresh(s: State, event: Event)
    requires RowsAreFresh(s)
    ensures RowsAreFresh(After(s, event))
  {
  }

  lemma {:induction false} RunKeepsFresh(s: State, events: seq<Event>)
    requires RowsAreFresh(s)
    ensures RowsAreFresh(AfterAll(s, events))
    decreases |events|
  {
    if events != [] {
      EventKeepsFresh(s, events[0]);
      RunKeepsFresh(After(s, events[0]), events[1..]);
    }
  }

  /** A job that a transaction offers for the programme lists everybody it touches there. */
  lemma OffersListTouched(s: State, op: Op, k: JobKey, p: Id, x: Id)
    requires (p, x) in Touched(s.tables, op)
    requires k in Offers(s.recorded, s.tables, op) && Offers(s.recorded, s.tables, op)[k].programme == p
    ensures Covers(Offers(s.recorded, s.tables, op)[k], p, x)
  {
  }

  /** A transaction offers a job for a programme it touches exactly under the one key. */
  ghost predicate OffersAt(s: State, op: Op, k: JobKey, p: Id) {
    k in Offers(s.recorded, s.tables, op) && Offers(s.recorded, s.tables, op)[k].programme == p
  }

  lemma CascadeTouches(l: Ledger, e: Id, p: Id, x: Id)
    requires (p, x) in CascadePairs(l, e)
    ensures p in Programmes(l, ActivationsAt(l, e), Doomed(l, e)) && x in Collected(l, e)
  {
  }

  lemma NewKeyOffers(s: State, op: Op, p: Id, x: Id)
    requires RowsAreFresh(s) && (p, x) in Touched(s.tables, op)
    ensures KeyIsNew(s, op, p) <==> exists k :: OffersAt(s, op, k, p) && k !in s.jobs
  {
    match op
    case OpInsert(aid, r) =>
      assert OfQso(s.recorded) !in s.jobs;
      assert OffersAt(s, op, OfQso(s.recorded), p);
    case OpBatch(aid, rs) =>
      if rs != [] {
        assert OffersAt(s, op, OfBatch(aid, rs[0].deduplicationKey), p);
      }
    case OpCascade(e) =>
      CascadeTouches(s.tables.ledger, e, p, x);
      if p != "" {
        assert OffersAt(s, op, OfCascade(e, p), p);
      }
    case _ =>
  }

  lemma CoveredAfter(s: State, op: Op, p: Id, x: Id)
    requires RowsAreFresh(s) && (p, x) in Touched(s.tables, op)
    ensures Covered(After(s, Records(op)).jobs, p, x) <==> KeyIsNew(s, op, p) || Covered(s.jobs, p, x)
  {
    var offers, t := Offers(s.recorded, s.tables, op), After(s, Records(op));
    NewKeyOffers(s, op, p, x);
    if KeyIsNew(s, op, p) {
      var k :| OffersAt(s, op, k, p) && k !in s.jobs;
      OffersListTouched(s, op, k, p, x);
      assert k in t.jobs && Covers(t.jobs[k], p, x);
    }
    if Covered(s.jobs, p, x) {
      var k :| k in s.jobs && Covers(s.jobs[k], p, x);
      assert k in t.jobs && Covers(t.jobs[k], p, x);
    }
    if k :| k in t.jobs && Covers(t.jobs[k], p, x) {
      if k !in s.jobs {
        assert OffersAt(s, op, k, p);
      }
    }
  }

  /** In every run: everybody whose counters a transaction changes has the award
      recalculated afterwards, however the queue is drained, if and only if the key under
      which the transaction queues its job is new, or an earlier job of the programme
      still has the subject before it. Opening an activation queues no job at all. */
  lemma RecordedIsServedIff(history: seq<Event>, op: Op, p: Id, x: Id)
    requires (p, x) in Touched(AfterAll(START, history).tables, op)
    ensures var s := AfterAll(START, history);
      AlwaysServed(After(s, Records(op)), p, x) <==> KeyIsNew(s, op, p) || Covered(s.jobs, p, x)
  {
    var s := AfterAll(START, history);
    RunKeepsFresh(START, history);
    CoveredAfter(s, op, p, x);
    AfterJoin(START, history, [Records(op)]);
    AfterOne(s, Records(op));
    ServedIffCovered(history + [Records(op)], p, x);
  }

  // ------------------------------------------------ when a key is known

  /** The event offers a job under the key. */
  ghost predicate Brings(s: State, event: Event, k: JobKey) {
    match event
    case Records(op) => k in Offers(s.recorded, s.tables, op)
    case Requests(text, _, _) => k == OfRequest(text)
    case _ => false
  }

  ghost predicate RunBrings(s: State, events: seq<Event>, k: JobKey)
    decreases |events|
  {
    events != [] && (Brings(s, events[0], k) || RunBrings(After(s, events[0]), events[1..], k))
  }

  lemma BringsOne(s: State, event: Event, k: JobKey)
    ensures k in After(s, event).jobs <==> k in s.jobs || Brings(s, event, k)
  {
  }

  /** A key is known exactly if an earlier event of the run offered a job under it. */
  lemma {:induction false} KnownIffBrought(s: State, events: seq<Event>, k: JobKey)
    ensures k in AfterAll(s, events).jobs <==> k in s.jobs || RunBrings(s, events, k)
    decreases |events|
  {
    if events != [] {
      BringsOne(s, events[0], k);
      KnownIffBrought(After(s, events[0]), events[1..], k);
    }
  }

  /** For a cascade that concerns the programme, in terms of the run alone: it was the
      first of the entity to do so, or an earlier job still has the subject before it. */
  lemma CascadeIsServedIff(history: seq<Event>, e: Id, p: Id, x: Id)
    requires p != "" && (p, x) in Touched(AfterAll(START, history).tables, OpCascade(e))
    ensures var s := AfterAll(START, history);
      AlwaysServed(After(s, Records(OpCascade(e))), p, x) <==>
      !RunBrings(START, history, OfCascade(e, p)) || Covered(s.jobs, p, x)
  {
    RecordedIsServedIff(history, OpCascade(e), p, x);
    KnownIffBrought(START, history, OfCascade(e, p));
  }

  // ------------------------------------------------ who is not touched

  lemma TouchedRow(t: Tables, op: Op, site: Site, hunterId: Option<Id>, k: SubjectKey)
    requires k == SubjectKey(site.programme, site.operatorId, ACTIVATOR) ||
             (hunterId.Some? && k == SubjectKey(site.programme, hunterId.value, HUNTER))
    ensures (k.programme, k.subject) in Pairs(site, HunterSet(hunterId))
  {
  }

  /** A stored QSO changes the truth of nobody but those it touches. */
  lemma UntouchedByStore(t: Tables, aid: Id, r: Record, k: SubjectKey)
    requires aid in t.ledger.activations
    requires r.deduplicationKey !in t.ledger.qsos ==>
      (k.programme, k.subject) !in Pairs(t.ledger.activations[aid].site, HunterSet(r.hunterId))
    ensures SubjectTruth(StoreQso(t, aid, r).ledger, k) == SubjectTruth(t.ledger, k)
  {
    if r.deduplicationKey !in t.ledger.qsos {
      var site := t.ledger.activations[aid].site;
      Owners(t.ledger, aid, r, k);
      TruthExtends(t.ledger, StoreQso(t, aid, r).ledger, r.deduplicationKey, ToQso(aid, site, r), k);
    }
  }

  lemma {:induction false} UntouchedByBatch(t: Tables, aid: Id, rs: seq<Record>, k: SubjectKey)
    requires aid in t.ledger.activations
    requires (k.programme, k.subject) !in Pairs(t.ledger.activations[aid].site, NewHunters(t.ledger.qsos, rs))
    ensures SubjectTruth(StoreBatch(t, aid, rs).ledger, k) == SubjectTruth(t.ledger, k)
    decreases |rs|
  {
    if rs != [] {
      BatchUnfolds(t, aid, rs);
      assert rs[0] in rs && forall r | r in rs[1..] :: r in rs;
      UntouchedByStore(t, aid, rs[0], k);
      UntouchedByBatch(StoreQso(t, aid, rs[0]), aid, rs[1..], k);
    }
  }

  lemma {:induction false} NothingNew(qsos: map<string, Qso>, aid: Id, site: Site, rs: seq<Record>)
    requires StoredKeys(qsos, aid, site, rs) == []
    ensures StoreRows(qsos, aid, site, rs) == qsos
    decreases |rs|
  {
    if rs != [] {
      NothingNew(qsos, aid, site, rs[1..]);
    }
  }

  lemma DoomedOwnersArePaired(l: Ledger, e: Id, k: SubjectKey, d: string)
    requires WellFormed(l) && d in OwnedQsos(l, k) && d in Doomed(l, e)
    ensures (k.programme, k.subject) in CascadePairs(l, e)
  {
    if k.category == ACTIVATOR {
      assert l.qsos[d].operatorId == k.subject && l.qsos[d].programme == k.programme;
    }
  }

  lemma UntouchedByCascade(t: Tables, e: Id, k: SubjectKey)
    requires WellFormed(t.ledger) && (k.programme, k.subject) !in CascadePairs(t.ledger, e)
    ensures SubjectTruth(CascadeLedger(t.ledger, e), k) == SubjectTruth(t.ledger, k)
  {
    var l, m := t.ledger, CascadeLedger(t.ledger, e);
    CascadeSites(l, e);
    SameSitesSameOwners(l, m, k);
    forall d ensures d in OwnedQsos(m, k) <==> d in OwnedQsos(l, k) {
      if d in OwnedQsos(l, k) && d in Doomed(l, e) {
        DoomedOwnersArePaired(l, e, k, d);
        assert false;
      }
    }
    assert OwnedQsos(m, k) == OwnedQsos(l, k);
    SameOwnedSameTruth(l, m, k);
  }

  /** A transaction changes what the ledger says about nobody but those it touches. */
  lemma UntouchedKeepTruth(t: Tables, op: Op, k: SubjectKey)
    requires Exact(t) && (k.programme, k.subject) !in Touched(t, op)
    ensures SubjectTruth(Step(t, op).ledger, k) == SubjectTruth(t.ledger, k)
  {
    match op
    case OpCreate(aid, site, _, _) =>
      if aid !in t.ledger.activations {
        CreateTruth(t.ledger, Step(t, op).ledger, aid, k);
      }
    case OpInsert(aid, r) =>
      if InsertQso(t, aid, r).Success? {
        UntouchedByStore(t, aid, r, k);
      }
    case OpBatch(aid, rs) =>
      if InsertBatch(t, aid, rs).Success? {
        if StoresRows(t, aid, rs) {
          UntouchedByBatch(t, aid, rs, k);
        } else {
          NothingNew(t.ledger.qsos, aid, t.ledger.activations[aid].site, rs);
          SameQsosSameTruth(t.ledger, Step(t, op).ledger, k);
        }
      }
    case OpClose(aid, valid) =>
      if aid in t.ledger.activations {
        SameQsosSameTruth(t.ledger, Step(t, op).ledger, k);
      }
    case OpCascade(e) => UntouchedByCascade(t, e, k);
  }

  // ------------------------------------------------ failing runs

  /** An operator activates an entity that is cascaded and recalculated; then an operator,
      the same or another, activates it again and it is cascaded again. */
  ghost function CascadedTwice(p: Id, e: Id, first: Id, second: Id): seq<Event> {
    [Records(OpCreate("a", Site(p, e, first), 0, None)), Records(OpCascade(e))] +
    ([Begins(OfCascade(e, p)), Computes(OfCascade(e, p), first), Completes(OfCascade(e, p))] +
     [Records(OpCreate("b", Site(p, e, second), 0, None))])
  }

  lemma AfterTwo(s: State, x: Event, y: Event)
    ensures AfterAll(s, [x, y]) == After(After(s, x), y)
  {
    assert [x, y][1..] == [y];
    AfterOne(After(s, x), y);
  }

  lemma AfterThree(s: State, x: Event, y: Event, z: Event)
    ensures AfterAll(s, [x, y, z]) == After(After(After(s, x), y), z)
  {
    assert [x, y, z][1..] == [y, z];
    AfterTwo(After(s, x), y, z);
  }

  /** One activation at the entity and no QSO. */
  ghost predicate OnlyActivation(t: Tables, a: Id, site: Site) {
    t.ledger.qsos == map[] && t.ledger.activations.Keys == {a} && t.ledger.activations[a].site == site
  }

  lemma CascadeOfOne(t: Tables, a: Id, site: Site)
    requires OnlyActivation(t, a, site)
    ensures OnlyActivation(Step(t, OpCascade(site.entityId)), a, site)
    ensures forall n :: Offers(n, t, OpCascade(site.entityId)) == CascadeOffers(site.entityId, {site.programme}, {site.operatorId})
  {
    var l, e := t.ledger, site.entityId;
    assert Doomed(l, e) == {} && ActivationsAt(l, e) == {a};
    assert Programmes(l, {a}, {}) == {site.programme};
    assert Collected(l, e) == {site.operatorId};
  }

  lemma OneOffer(e: Id, p: Id, x: Id)
    requires p != ""
    ensures Offered(map[], CascadeOffers(e, {p}, {x})) == map[OfCascade(e, p) := AwardJob(p, {x}, Waiting)]
  {
    var offers := CascadeOffers(e, {p}, {x});
    assert OfCascade(e, p) in offers;
    assert offers.Keys == {OfCascade(e, p)};
  }

  lemma HandleOne(s: State, k: JobKey, p: Id, x: Id)
    requires s.jobs == map[k := AwardJob(p, {x}, Waiting)]
    ensures AfterAll(s, [Begins(k), Computes(k, x), Completes(k)]) == s.(jobs := map[k := AwardJob(p, {x}, Done)])
  {
    AfterThree(s, Begins(k), Computes(k, x), Completes(k));
    var a := After(s, Begins(k));
    assert a.jobs == map[k := AwardJob(p, {x}, Handled({x}))];
    var b := After(a, Computes(k, x));
    assert b.jobs == map[k := AwardJob(p, {x}, Handled({}))];
  }

  /** Whoever it is that activates the entity after its first cascade: the second one
      rebuilds their counters, and nobody recalculates their awards. */
  lemma SecondCascadeForgets(p: Id, e: Id, first: Id, second: Id)
    requires p != ""
    ensures var s := AfterAll(START, CascadedTwice(p, e, first, second));
      && (p, second) in Touched(s.tables, OpCascade(e))
      && second in Collected(s.tables.ledger, e)
      && !AlwaysServed(After(s, Records(OpCascade(e))), p, second)
  {
    var site, k := Site(p, e, first), OfCascade(e, p);
    var begin := [Records(OpCreate("a", site, 0, None)), Records(OpCascade(e))];
    var work, again := [Begins(k), Computes(k, first), Completes(k)], [Records(OpCreate("b", Site(p, e, second), 0, None))];
    AfterJoin(START, begin, work + again);
    AfterTwo(START, begin[0], begin[1]);
    var launched := After(START, begin[0]);
    assert OnlyActivation(launched.tables, "a", site) && launched.jobs == map[];
    CascadeOfOne(launched.tables, "a", site);
    OneOffer(e, p, first);
    var cascaded := After(launched, begin[1]);
    assert OnlyActivation(cascaded.tables, "a", site) && cascaded.jobs == map[k := AwardJob(p, {first}, Waiting)];
    AfterJoin(cascaded, work, again);
    HandleOne(cascaded, k, p, first);
    AfterOne(AfterAll(cascaded, work), again[0]);
    ReopenedIsForgotten(AfterAll(cascaded, work), p, e, first, second);
    RecordedIsServedIff(CascadedTwice(p, e, first, second), OpCascade(e), p, second);
  }

  lemma ReopenedIsForgotten(s: State, p: Id, e: Id, first: Id, second: Id)
    requires OnlyActivation(s.tables, "a", Site(p, e, first)) && s.jobs == map[OfCascade(e, p) := AwardJob(p, {first}, Done)]
    ensures var t := After(s, Records(OpCreate("b", Site(p, e, second), 0, None)));
      && (p, second) in Touched(t.tables, OpCascade(e)) && second in Collected(t.tables.ledger, e)
      && !KeyIsNew(t, OpCascade(e), p) && !Covered(t.jobs, p, second)
  {
    var t := After(s, Records(OpCreate("b", Site(p, e, second), 0, None)));
    assert t.jobs == s.jobs;
    assert "b" in ActivationsAt(t.tables.ledger, e);
  }

  /** Opening an activation changes a counter that awards may use and queues no job. */
  lemma ActivationIsForgotten(aid: Id, site: Site, start: nat, expiresAt: Option<nat>)
    ensures var op := OpCreate(aid, site, start, expiresAt);
      && (site.programme, site.operatorId) in Touched(EMPTY, op)
      && !AlwaysServed(After(START, Records(op)), site.programme, site.operatorId)
  {
    RecordedIsServedIff([], OpCreate(aid, site, start, expiresAt), site.programme, site.operatorId);
  }

  /** A batch, its job, and what a later batch with the same first record queues. */
  ghost function BatchedOnce(site: Site, r: Record): seq<Event> {
    [Records(OpCreate("a", site, 0, None)), Records(OpBatch("a", [r]))] +
    [Begins(OfBatch("a", r.deduplicationKey)), Computes(OfBatch("a", r.deduplicationKey), site.operatorId),
     Completes(OfBatch("a", r.deduplicationKey))]
  }

  ghost predicate OpenActivation(t: Tables, a: Id, site: Site) {
    && a in t.ledger.activations && t.ledger.activations[a].site == site
    && t.ledger.activations[a].status == Open
    && t.ledger.activations[a].startedAt == 0 && t.ledger.activations[a].expiresAt.None?
  }

  lemma RowsOfOne(a: Id, site: Site, r: Record)
    ensures StoreRows(map[], a, site, [r]) == map[r.deduplicationKey := ToQso(a, site, r)]
    ensures StoredKeys(map[], a, site, [r]) == [r.deduplicationKey]
  {
    var rs := [r];
    assert rs[0] == r && rs[1..] == [];
    var stored := map[][r.deduplicationKey := ToQso(a, site, r)];
    assert StoreRows(map[], a, site, rs) == StoreRows(stored, a, site, []) == stored;
    assert StoredKeys(map[], a, site, rs) == [r.deduplicationKey] + StoredKeys(stored, a, site, []);
  }

  lemma BatchOfOne(t: Tables, a: Id, site: Site, r: Record, n: nat)
    requires OpenActivation(t, a, site) && t.ledger.qsos == map[] && r.hunterId.None?
    ensures var u := Step(t, OpBatch(a, [r]));
      OpenActivation(u, a, site) && u.ledger.qsos.Keys == {r.deduplicationKey}
    ensures Offers(n, t, OpBatch(a, [r])) == map[OfBatch(a, r.deduplicationKey) := AwardJob(site.programme, {site.operatorId}, Waiting)]
  {
    RowsOfOne(a, site, r);
    assert InsertBatch(t, a, [r]) == Success(StoreBatch(t, a, [r]));
    BatchOffers(t, a, site, [r], n);
    NoHunters(r);
    assert {site.operatorId} + Hunters([r]) == {site.operatorId};
  }

  lemma NoHunters(r: Record)
    requires r.hunterId.None?
    ensures Hunters([r]) == {}
  {
    forall q | q in [r] ensures q.hunterId.None? {
    }
  }

  lemma BatchOffers(t: Tables, a: Id, site: Site, rs: seq<Record>, n: nat)
    requires rs != [] && a in t.ledger.activations && t.ledger.activations[a].site == site
    requires InsertBatch(t, a, rs).Success? && StoredKeys(t.ledger.qsos, a, site, rs) != []
    ensures Offers(n, t, OpBatch(a, rs)) ==
            map[OfBatch(a, rs[0].deduplicationKey) := AwardJob(site.programme, {site.operatorId} + Hunters(rs), Waiting)]
  {
    assert StoresRows(t, a, rs);
  }

  lemma SecondBatchTouches(t: Tables, a: Id, site: Site, r: Record, q: Record, x: Id)
    requires OpenActivation(t, a, site) && t.ledger.qsos.Keys == {r.deduplicationKey} && q.deduplicationKey != r.deduplicationKey
    requires x == site.operatorId || q.hunterId == Some(x)
    ensures (site.programme, x) in Touched(t, OpBatch(a, [r, q]))
  {
    var rs := [r, q];
    assert rs[0] == r && rs[1] == q && rs[1..] == [q] && [q][0] == q;
    assert StoredKeys(t.ledger.qsos, a, site, rs) == StoredKeys(t.ledger.qsos, a, site, [q]) != [];
    assert InsertBatch(t, a, rs).Success?;
    assert q in rs;
  }

  /** The job of a batch is looked up by its first record: when that record was the first
      of an earlier batch whose job is done, the new contacts behind it are stored and
      nobody recalculates the awards of their operator and hunters. */
  lemma SecondBatchForgets(site: Site, r: Record, q: Record, x: Id)
    requires r.hunterId.None? && q.deduplicationKey != r.deduplicationKey
    requires x == site.operatorId || q.hunterId == Some(x)
    ensures var s := AfterAll(START, BatchedOnce(site, r));
      && (site.programme, x) in Touched(s.tables, OpBatch("a", [r, q]))
      && !AlwaysServed(After(s, Records(OpBatch("a", [r, q]))), site.programme, x)
  {
    var k := OfBatch("a", r.deduplicationKey);
    var begin := [Records(OpCreate("a", site, 0, None)), Records(OpBatch("a", [r]))];
    var work := [Begins(k), Computes(k, site.operatorId), Completes(k)];
    AfterJoin(START, begin, work);
    AfterTwo(START, begin[0], begin[1]);
    var launched := After(START, begin[0]);
    assert OpenActivation(launched.tables, "a", site) && launched.jobs == map[];
    BatchOfOne(launched.tables, "a", site, r, 0);
    var batched := After(launched, begin[1]);
    assert batched.jobs == map[k := AwardJob(site.programme, {site.operatorId}, Waiting)];
    HandleOne(batched, k, site.programme, site.operatorId);
    var s := AfterAll(START, BatchedOnce(site, r));
    SecondBatchTouches(s.tables, "a", site, r, q, x);
    assert [r, q][0] == r;
    assert !Covered(s.jobs, site.programme, x) && !KeyIsNew(s, OpBatch("a", [r, q]), site.programme);
    RecordedIsServedIff(BatchedOnce(site, r), OpBatch("a", [r, q]), site.programme, x);
  }
}
