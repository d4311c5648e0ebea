/** Promotion queues: confirmed candidates become catalogue entities, one candidate per
    transaction, by any number of workers that may stop between two of them. */
module Promotion {
  import opened Wrappers
  import opened Sequences

  type CandidateId = nat
  type QueueId = nat
  type EntityId = nat
  type WorkerId = nat

  datatype Status = PENDING | CONFIRMED | PROCESSED

  datatype Target = ToCandidate | ToApproved

  datatype EntityStatus = CandidateEntity | ApprovedEntity | OtherEntity

  datatype Candidate = Candidate(
    run: nat,
    entity: EntityId,
    existing: bool,
    status: Status,
    queue: Option<QueueId>,
    processedEntity: Option<EntityId>)

  datatype QueueStatus = QUEUED | PROCESSING | COMPLETED | FAILED

  datatype Report = Report(created: seq<EntityId>, updated: seq<EntityId>, errors: seq<CandidateId>)

  datatype Queue = Queue(run: nat, ids: seq<CandidateId>, target: Target, status: QueueStatus, result: Report)

  /** What became of one listed occurrence; kept for the proofs beside the three lists. */
  datatype Verdict = WasCreated(e: EntityId) | WasUpdated(e: EntityId) | Refused(id: CandidateId)

  datatype Pass = Pass(queue: QueueId, position: nat, report: Report, verdicts: seq<Verdict>)

  datatype State = State(
    known: set<CandidateId>,
    candidates: map<CandidateId, Candidate>,
    queues: map<QueueId, Queue>,
    passes: map<WorkerId, Pass>,
    items: map<EntityId, EntityStatus>,
    applied: seq<CandidateId>)

  const START := State({}, map[], map[], map[], map[], [])
  const NOTHING := Report([], [], [])

  datatype Step =
    | StageNew(id: CandidateId, run: nat, entity: EntityId, existing: bool)
    | Restage(id: CandidateId)
    | Confirm(id: CandidateId)
    | Remove(id: CandidateId)
    | Submit(q: QueueId, run: nat, ids: seq<CandidateId>, target: Target)
    | Claim(w: WorkerId, q: QueueId)
    | One(w: WorkerId)
    | Finish(w: WorkerId)
    | Crash(w: WorkerId)
    | Outside(e: EntityId, status: EntityStatus)

  // ------------------------------------------------ submitting

  /** A record may be queued again only after the queue it was in has failed on it. */
  predicate Requeueable(s: State, id: CandidateId) {
    && id in s.candidates && s.candidates[id].status != PROCESSED
    && match s.candidates[id].queue
       case None => true
       case Some(q) =>
         && s.candidates[id].status == CONFIRMED
         && q in s.queues && s.queues[q].status == FAILED && id in s.queues[q].result.errors
  }

  predicate CanSubmit(s: State, q: QueueId, run: nat, ids: seq<CandidateId>) {
    q !in s.queues && ids != [] && forall id | id in ids :: Requeueable(s, id) && s.candidates[id].run == run
  }

  function Submitted(s: State, q: QueueId, run: nat, ids: seq<CandidateId>, target: Target): State {
    s.(candidates := map id | id in s.candidates ::
         if id in ids then s.candidates[id].(status := CONFIRMED, queue := Some(q)) else s.candidates[id],
       queues := s.queues[q := Queue(run, ids, target, QUEUED, NOTHING)])
  }

  // ------------------------------------------------ one candidate

  /** Why a candidate cannot be promoted by this queue. */
  predicate Blocked(s: State, q: QueueId, c: Candidate) {
    || c.status != CONFIRMED
    || (c.queue.Some? && c.queue.value != q)
    || (c.entity in s.items && s.items[c.entity] == ApprovedEntity)
  }

  function Judge(s: State, q: QueueId, id: CandidateId): Option<Verdict> {
    if id !in s.candidates then Some(Refused(id))
    else
      var c := s.candidates[id];
      if c.status == PROCESSED then
        (match c.processedEntity
         case None => None
         case Some(e) => Some(if c.existing then WasUpdated(e) else WasCreated(e)))
      else if Blocked(s, q, c) then Some(Refused(id))
      else Some(if c.entity in s.items then WasUpdated(c.entity) else WasCreated(c.entity))
  }

  predicate Promotes(s: State, q: QueueId, id: CandidateId) {
    id in s.candidates && s.candidates[id].status != PROCESSED && !Blocked(s, q, s.candidates[id])
  }

  function Materialized(s: State, id: CandidateId, target: Target): State
    requires id in s.candidates
  {
    var c := s.candidates[id];
    s.(items := s.items[c.entity := if target == ToApproved then ApprovedEntity else CandidateEntity],
       candidates := s.candidates[id := c.(status := PROCESSED, processedEntity := Some(c.entity))],
       applied := s.applied + [id])
  }

  function Reported(r: Report, verdict: Option<Verdict>): Report {
    match verdict
    case None => r
    case Some(WasCreated(e)) => r.(created := r.created + [e])
    case Some(WasUpdated(e)) => r.(updated := r.updated + [e])
    case Some(Refused(id)) => r.(errors := r.errors + [id])
  }

  function Advanced(p: Pass, verdict: Option<Verdict>): Pass {
    Pass(p.queue, p.position + 1, Reported(p.report, verdict),
         if verdict.Some? then p.verdicts + [verdict.value] else p.verdicts)
  }

  function ProcessOne(s: State, w: WorkerId): State
    requires w in s.passes && s.passes[w].queue in s.queues
    requires s.passes[w].position < |s.queues[s.passes[w].queue].ids|
  {
    var p := s.passes[w];
    var queue := s.queues[p.queue];
    var id := queue.ids[p.position];
    var next := if Promotes(s, p.queue, id) then Materialized(s, id, queue.target) else s;
    next.(passes := next.passes[w := Advanced(p, Judge(s, p.queue, id))])
  }

  function Finished(s: State, w: WorkerId): State
    requires w in s.passes && s.passes[w].queue in s.queues
  {
    var p := s.passes[w];
    var status := if p.report.errors == [] then COMPLETED else FAILED;
    s.(queues := s.queues[p.queue := s.queues[p.queue].(status := status, result := p.report)], passes := s.passes - {w})
  }

  /** One transaction; a step that is not enabled changes nothing. */
  function Apply(s: State, step: Step): State {
    match step
    case StageNew(id, run, entity, existing) =>
      if id in s.known then s
      else s.(known := s.known + {id},
              candidates := s.candidates[id := Candidate(run, entity, existing, PENDING, None, None)])
    case Restage(id) =>
      if id in s.candidates then s.(candidates := s.candidates[id := s.candidates[id].(queue := None)]) else s
    case Confirm(id) =>
      if id in s.candidates && s.candidates[id].status != PROCESSED then
        s.(candidates := s.candidates[id := s.candidates[id].(status := CONFIRMED)])
      else s
    case Remove(id) =>
      if id in s.candidates && s.candidates[id].queue.None? then s.(candidates := s.candidates - {id}) else s
    case Submit(q, run, ids, target) => if CanSubmit(s, q, run, ids) then Submitted(s, q, run, ids, target) else s
    case Claim(w, q) =>
      if w !in s.passes && q in s.queues && (s.queues[q].status == QUEUED || s.queues[q].status == PROCESSING) then
        s.(queues := s.queues[q := s.queues[q].(status := PROCESSING)], passes := s.passes[w := Pass(q, 0, NOTHING, [])])
      else s
    case One(w) =>
      if w in s.passes && s.passes[w].queue in s.queues && s.passes[w].position < |s.queues[s.passes[w].queue].ids|
      then ProcessOne(s, w) else s
    case Finish(w) =>
      if w in s.passes && s.passes[w].queue in s.queues && s.passes[w].position == |s.queues[s.passes[w].queue].ids|
      then Finished(s, w) else s
    case Crash(w) => s.(passes := s.passes - {w})
    case Outside(e, status) => s.(items := s.items[e := status])
  }

  function Run(s: State, steps: seq<Step>): State
    decreases |steps|
  {
    if steps == [] then s else Run(Apply(s, steps[0]), steps[1..])
  }

  // ------------------------------------------------ invariants

  /** A candidate that is still there has been applied exactly when it says so. */
  ghost predicate Honest(s: State, id: CandidateId) {
    && (id in s.candidates ==> id in s.known && (id in s.applied <==> s.candidates[id].status == PROCESSED))
    && (id in s.candidates && s.candidates[id].status == PROCESSED ==> s.candidates[id].processedEntity.Some?)
    && (id in s.applied ==> id in s.known)
  }

  function Creates(vs: seq<Verdict>): seq<EntityId> {
    if vs == [] then []
    else Creates(vs[..|vs| - 1]) + (if vs[|vs| - 1].WasCreated? then [vs[|vs| - 1].e] else [])
  }

  function Updates(vs: seq<Verdict>): seq<EntityId> {
    if vs == [] then []
    else Updates(vs[..|vs| - 1]) + (if vs[|vs| - 1].WasUpdated? then [vs[|vs| - 1].e] else [])
  }

  function Refusals(vs: seq<Verdict>): seq<CandidateId> {
    if vs == [] then []
    else Refusals(vs[..|vs| - 1]) + (if vs[|vs| - 1].Refused? then [vs[|vs| - 1].id] else [])
  }

  /** The three lists are the verdicts sorted by kind, one verdict for each occurrence. */
  ghost predicate Accounts(r: Report, vs: seq<Verdict>, ids: seq<CandidateId>) {
    && |vs| <= |ids|
    && r == Report(Creates(vs), Updates(vs), Refusals(vs))
    && forall i :: 0 <= i < |vs| && vs[i].Refused? ==> vs[i].id == ids[i]
  }

  /** Candidates that a verdict other than a refusal speaks of have been applied. */
  ghost predicate Settled(s: State, vs: seq<Verdict>, ids: seq<CandidateId>)
    requires |vs| <= |ids|
  {
    forall i :: 0 <= i < |vs| && !vs[i].Refused? ==> ids[i] in s.applied
  }

  ghost predicate PassSound(s: State, p: Pass) {
    && p.queue in s.queues
    && |p.verdicts| == p.position
    && Accounts(p.report, p.verdicts, s.queues[p.queue].ids)
    && Settled(s, p.verdicts, s.queues[p.queue].ids)
  }

  ghost predicate Explains(s: State, q: Queue, vs: seq<Verdict>) {
    |vs| == |q.ids| && Accounts(q.result, vs, q.ids) && Settled(s, vs, q.ids)
  }

  /** A finished queue accounts for every occurrence it lists, in one list each. */
  ghost predicate QueueSound(s: State, q: Queue) {
    q.status == COMPLETED || q.status == FAILED ==>
      && (exists vs :: Explains(s, q, vs))
      && (q.status == COMPLETED <==> q.result.errors == [])
  }

  /** A queue lists ids that were once staged, and a candidate that names a queue was
      confirmed for it and is listed by it. */
  ghost predicate ListsKnown(s: State, q: QueueId) {
    q in s.queues ==> forall id | id in s.queues[q].ids :: id in s.known
  }

  ghost predicate NamesItsQueue(s: State, id: CandidateId) {
    id in s.candidates && s.candidates[id].queue.Some? ==>
      && s.candidates[id].status != PENDING
      && s.candidates[id].queue.value in s.queues
      && id in s.queues[s.candidates[id].queue.value].ids
  }

  ghost predicate Inv(s: State) {
    && Distinct(s.applied)
    && (forall id :: Honest(s, id))
    && (forall q :: ListsKnown(s, q))
    && (forall id :: NamesItsQueue(s, id))
    && (forall w | w in s.passes :: PassSound(s, s.passes[w]))
    && (forall q | q in s.queues :: QueueSound(s, s.queues[q]))
  }

  lemma OneMoreVerdict(r: Report, vs: seq<Verdict>, ids: seq<CandidateId>, v: Verdict)
    requires Accounts(r, vs, ids) && |vs| < |ids| && (v.Refused? ==> v.id == ids[|vs|])
    ensures Accounts(Reported(r, Some(v)), vs + [v], ids)
  {
    assert (vs + [v])[..|vs|] == vs;
  }

  lemma OneMoreSettled(s: State, vs: seq<Verdict>, ids: seq<CandidateId>, v: Verdict)
    requires |vs| < |ids| && Settled(s, vs, ids) && (!v.Refused? ==> ids[|vs|] in s.applied)
    ensures Settled(s, vs + [v], ids)
  {
  }

  /** The catalogue of verdicts only ever gains applied candidates. */
  lemma StaysSettled(s: State, t: State, vs: seq<Verdict>, ids: seq<CandidateId>)
    requires |vs| <= |ids| && Settled(s, vs, ids) && forall id | id in s.applied :: id in t.applied
    ensures Settled(t, vs, ids)
  {
  }

  ghost predicate Keeps(s: State, t: State) {
    && s.applied <= t.applied
    && (forall q | q in s.queues :: q in t.queues && t.queues[q].ids == s.queues[q].ids)
  }

  lemma StepKeeps(s: State, step: Step)
    ensures Keeps(s, Apply(s, step))
  {
  }

  lemma PassStays(s: State, t: State, p: Pass)
    requires PassSound(s, p) && Keeps(s, t)
    ensures PassSound(t, p)
  {
    StaysSettled(s, t, p.verdicts, s.queues[p.queue].ids);
  }

  lemma QueueStays(s: State, t: State, q: Queue)
    requires QueueSound(s, q) && Keeps(s, t)
    ensures QueueSound(t, q)
  {
    if q.status == COMPLETED || q.status == FAILED {
      var vs :| Explains(s, q, vs);
      StaysSettled(s, t, vs, q.ids);
      assert Explains(t, q, vs);
    }
  }

  // ------------------------------------------------ every step keeps them

  lemma StepKeepsDistinct(s: State, step: Step)
    requires Inv(s)
    ensures Distinct(Apply(s, step).applied)
  {
    if step.One? && step.w in s.passes && Apply(s, step).applied != s.applied {
      var p := s.passes[step.w];
      var id := s.queues[p.queue].ids[p.position];
      assert Honest(s, id);
    }
  }

  lemma StepKeepsHonest(s: State, step: Step, id: CandidateId)
    requires Honest(s, id)
    ensures Honest(Apply(s, step), id)
  {
  }

  lemma StepKeepsLists(s: State, step: Step, q: QueueId)
    requires ListsKnown(s, q) && forall id :: Honest(s, id)
    ensures ListsKnown(Apply(s, step), q)
  {
    if step.Submit? && q == step.q {
      forall id | id in step.ids && id in s.candidates ensures id in s.known {
        assert Honest(s, id);
      }
    }
  }

  lemma StepKeepsNames(s: State, step: Step, id: CandidateId)
    requires NamesItsQueue(s, id)
    ensures NamesItsQueue(Apply(s, step), id)
  {
  }

  lemma JudgedSoundly(s: State, q: QueueId, id: CandidateId, target: Target)
    requires Honest(s, id)
    ensures Judge(s, q, id).Some?
    ensures Judge(s, q, id).value.Refused? ==> Judge(s, q, id).value.id == id
    ensures !Judge(s, q, id).value.Refused? ==>
      id in if Promotes(s, q, id) then Materialized(s, id, target).applied else s.applied
  {
  }

  lemma OneKeepsPass(s: State, w: WorkerId)
    requires Inv(s) && w in s.passes && s.passes[w].queue in s.queues
    requires s.passes[w].position < |s.queues[s.passes[w].queue].ids|
    ensures PassSound(ProcessOne(s, w), ProcessOne(s, w).passes[w])
  {
    var p, t := s.passes[w], ProcessOne(s, w);
    var queue := s.queues[p.queue];
    var id := queue.ids[p.position];
    assert Honest(s, id) && PassSound(s, p);
    JudgedSoundly(s, p.queue, id, queue.target);
    OneMoreVerdict(p.report, p.verdicts, queue.ids, Judge(s, p.queue, id).value);
    StepKeeps(s, One(w));
    StaysSettled(s, t, p.verdicts, queue.ids);
    OneMoreSettled(t, p.verdicts, queue.ids, Judge(s, p.queue, id).value);
  }

  lemma StepKeepsPasses(s: State, step: Step)
    requires Inv(s)
    ensures forall w | w in Apply(s, step).passes :: PassSound(Apply(s, step), Apply(s, step).passes[w])
  {
    var t := Apply(s, step);
    StepKeeps(s, step);
    forall w | w in t.passes ensures PassSound(t, t.passes[w]) {
      if step == One(w) && t != s {
        OneKeepsPass(s, w);
      } else if w in s.passes && t.passes[w] == s.passes[w] {
        assert PassSound(s, s.passes[w]);
        PassStays(s, t, s.passes[w]);
      } else {
        NewPassIsSound(s, step, w);
      }
    }
  }

  /** A pass that a step adds is one that has not reported anything. */
  lemma NewPassIsSound(s: State, step: Step, w: WorkerId)
    requires w in Apply(s, step).passes && (w !in s.passes || Apply(s, step).passes[w] != s.passes[w])
    requires step != One(w)
    ensures PassSound(Apply(s, step), Apply(s, step).passes[w])
  {
    assert step.Claim?;
  }

  lemma StepKeepsQueues(s: State, step: Step)
    requires Inv(s)
    ensures forall q | q in Apply(s, step).queues :: QueueSound(Apply(s, step), Apply(s, step).queues[q])
  {
    var t := Apply(s, step);
    StepKeeps(s, step);
    forall q | q in t.queues ensures QueueSound(t, t.queues[q]) {
      if q in s.queues && t.queues[q] == s.queues[q] {
        assert QueueSound(s, s.queues[q]);
        QueueStays(s, t, s.queues[q]);
      } else if step.Finish? {
        FinishExplains(s, step.w);
      }
    }
  }

  lemma FinishExplains(s: State, w: WorkerId)
    requires w in s.passes && PassSound(s, s.passes[w])
    requires s.passes[w].position == |s.queues[s.passes[w].queue].ids|
    ensures var p := s.passes[w]; QueueSound(Finished(s, w), Finished(s, w).queues[p.queue])
  {
    var p, t := s.passes[w], Finished(s, w);
    assert Explains(t, t.queues[p.queue], p.verdicts);
  }

  lemma StepKeepsInv(s: State, step: Step)
    requires Inv(s)
    ensures Inv(Apply(s, step))
  {
    StepKeepsDistinct(s, step);
    forall id ensures Honest(Apply(s, step), id) {
      assert Honest(s, id);
      StepKeepsHonest(s, step, id);
    }
    forall q ensures ListsKnown(Apply(s, step), q) {
      assert ListsKnown(s, q);
      StepKeepsLists(s, step, q);
    }
    forall id ensures NamesItsQueue(Apply(s, step), id) {
      assert NamesItsQueue(s, id);
      StepKeepsNames(s, step, id);
    }
    StepKeepsPasses(s, step);
    StepKeepsQueues(s, step);
  }

  lemma {:induction false} RunKeepsInv(s: State, steps: seq<Step>)
    requires Inv(s)
    ensures Inv(Run(s, steps))
    decreases |steps|
  {
    if steps != [] {
      StepKeepsInv(s, steps[0]);
      RunKeepsInv(Apply(s, steps[0]), steps[1..]);
    }
  }

  // ------------------------------------------------ what it promises

  /** Across all queues, repeated ids, redeliveries and interleavings, a candidate is
      materialized at most once, and exactly once when it says it is processed. */
  lemma MaterializedOnce(steps: seq<Step>, id: CandidateId)
    ensures var s := Run(START, steps);
      && multiset(s.applied)[id] <= 1
      && (id in s.candidates ==> (multiset(s.applied)[id] == 1 <==> s.candidates[id].status == PROCESSED))
  {
    RunKeepsInv(START, steps);
    var s := Run(START, steps);
    assert Honest(s, id);
    DistinctCount(s.applied, id);
  }

  lemma {:induction false} VerdictsAddUp(vs: seq<Verdict>)
    ensures |Creates(vs)| + |Updates(vs)| + |Refusals(vs)| == |vs|
    decreases |vs|
  {
    if vs != [] {
      VerdictsAddUp(vs[..|vs| - 1]);
    }
  }

  /** Every completed pass of a queue reports each listed occurrence in exactly one of its
      three lists, and a queue without errors has all its candidates applied. */
  lemma PassesAddUp(steps: seq<Step>, q: QueueId)
    requires var s := Run(START, steps);
      q in s.queues && (s.queues[q].status == COMPLETED || s.queues[q].status == FAILED)
    ensures var s := Run(START, steps);
      var queue := s.queues[q];
      && |queue.result.created| + |queue.result.updated| + |queue.result.errors| == |queue.ids|
      && (queue.status == COMPLETED <==> queue.result.errors == [])
      && (queue.status == COMPLETED ==> forall id :: id in queue.ids ==> id in s.applied)
      && (forall id :: id in queue.ids ==> id in queue.result.errors || id in s.applied)
  {
    RunKeepsInv(START, steps);
    var s := Run(START, steps);
    var queue := s.queues[q];
    assert QueueSound(s, queue);
    var vs: seq<Verdict> :| Explains(s, queue, vs);
    VerdictsAddUp(vs);
    forall id | id in queue.ids ensures id in queue.result.errors || id in s.applied {
      var i: int :| 0 <= i < |queue.ids| && queue.ids[i] == id;
      if vs[i].Refused? {
        RefusalListed(vs, i);
      }
    }
  }

  lemma {:induction false} RefusalListed(vs: seq<Verdict>, i: nat)
    requires i < |vs| && vs[i].Refused?
    ensures vs[i].id in Refusals(vs)
    decreases |vs|
  {
    var front := vs[..|vs| - 1];
    if i < |front| {
      RefusalListed(front, i);
      assert front[i] == vs[i];
    }
  }

  lemma StepLeavesApproved(s: State, step: Step, e: EntityId)
    requires (step.Outside? ==> step.e != e) && e in s.items && s.items[e] == ApprovedEntity
    ensures e in Apply(s, step).items && Apply(s, step).items[e] == ApprovedEntity
  {
  }

  /** An approved entity stays approved through every run in which nobody else edits it:
      no promotion touches it. */
  lemma {:induction false} ApprovedIsLeftAlone(s: State, steps: seq<Step>, e: EntityId)
    requires e in s.items && s.items[e] == ApprovedEntity
    requires forall step | step in steps :: step.Outside? ==> step.e != e
    ensures e in Run(s, steps).items && Run(s, steps).items[e] == ApprovedEntity
    decreases |steps|
  {
    if steps != [] {
      StepLeavesApproved(s, steps[0], e);
      ApprovedIsLeftAlone(Apply(s, steps[0]), steps[1..], e);
    }
  }

  /** What happens to one candidate outside the queues: staging makes it pending and in no
      queue, a replay takes it out of its queue, a confirmation confirms it unless it is
      processed. */
  lemma CandidateAfter(s: State, step: Step, id: CandidateId)
    ensures step.StageNew? && step.id == id && id !in s.known ==>
      id in Apply(s, step).candidates &&
      Apply(s, step).candidates[id] == Candidate(step.run, step.entity, step.existing, PENDING, None, None)
    ensures id in s.candidates && step == Restage(id) ==>
      id in Apply(s, step).candidates && Apply(s, step).candidates[id] == s.candidates[id].(queue := None)
    ensures id in s.candidates && step == Confirm(id) ==>
      id in Apply(s, step).candidates &&
      Apply(s, step).candidates[id] == s.candidates[id].(status := if s.candidates[id].status == PROCESSED then PROCESSED else CONFIRMED)
  {
  }

  /** A claim, the end of a pass and a crash, queue by queue. */
  lemma QueueAfter(s: State, w: WorkerId, q: QueueId)
    requires q in s.queues
    ensures w !in s.passes && s.queues[q].status in {QUEUED, PROCESSING} ==>
      var t := Apply(s, Claim(w, q));
      t.queues[q].status == PROCESSING && w in t.passes && t.passes[w] == Pass(q, 0, Report([], [], []), [])
    ensures w in s.passes && s.passes[w].queue == q && s.passes[w].position == |s.queues[q].ids| ==>
      var t := Apply(s, Finish(w));
      && t.queues[q].status == (if s.passes[w].report.errors == [] then COMPLETED else FAILED)
      && t.queues[q].result == s.passes[w].report && w !in t.passes
    ensures Apply(s, Crash(w)).passes.Keys == s.passes.Keys - {w} && Apply(s, Crash(w)).queues == s.queues
    ensures forall e, status :: e in Apply(s, Outside(e, status)).items && Apply(s, Outside(e, status)).items[e] == status
  {
  }

  /** A candidate disappears only when it is removed, and only one that names no queue is. */
  lemma RemovedOnlyUnqueued(s: State, step: Step, id: CandidateId)
    requires id in s.candidates
    ensures id !in Apply(s, step).candidates <==> step == Remove(id) && s.candidates[id].queue.None?
  {
  }

  /** A candidate stays processed, with the entity it was promoted to, until it is removed. */
  lemma ProcessedStays(s: State, step: Step, id: CandidateId)
    requires id in s.candidates && s.candidates[id].status == PROCESSED && Inv(s)
    ensures var t := Apply(s, step);
      id in t.candidates ==> t.candidates[id].status == PROCESSED && t.candidates[id].processedEntity == s.candidates[id].processedEntity
  {
    assert Honest(s, id);
  }

  // ------------------------------------------------ when a listed record is queued again

  /** A queue that has not ended still lists the record, which is there and unprocessed. */
  ghost predicate Awaits(s: State, q: QueueId, id: CandidateId) {
    && q in s.queues && (s.queues[q].status == QUEUED || s.queues[q].status == PROCESSING)
    && id in s.queues[q].ids
    && id in s.candidates && s.candidates[id].status != PROCESSED
  }

  /** Preprocessing was replayed over the record when the queue was there already. */
  ghost predicate RestagedSince(s: State, steps: seq<Step>, q: QueueId, id: CandidateId)
    decreases |steps|
  {
    steps != [] &&
      ((steps[0] == Restage(id) && q in s.queues && id in s.candidates) || RestagedSince(Apply(s, steps[0]), steps[1..], q, id))
  }

  ghost predicate Tied(s: State, q: QueueId, id: CandidateId) {
    Awaits(s, q, id) ==> s.candidates[id].queue == Some(q)
  }

  ghost predicate Loose(s: State, q: QueueId, id: CandidateId) {
    q in s.queues && (id in s.candidates ==> s.candidates[id].queue != Some(q))
  }

  lemma StepKeepsTied(s: State, step: Step, q: QueueId, id: CandidateId)
    requires Tied(s, q, id) && Honest(s, id) && ListsKnown(s, q)
    requires !(step == Restage(id) && q in s.queues && id in s.candidates)
    ensures Tied(Apply(s, step), q, id)
  {
  }

  lemma StepKeepsLoose(s: State, step: Step, q: QueueId, id: CandidateId)
    requires Loose(s, q, id)
    ensures Loose(Apply(s, step), q, id)
  {
  }

  lemma {:induction false} RunKeepsLoose(s: State, steps: seq<Step>, q: QueueId, id: CandidateId)
    requires Loose(s, q, id)
    ensures Loose(Run(s, steps), q, id)
    decreases |steps|
  {
    if steps != [] {
      StepKeepsLoose(s, steps[0], q, id);
      RunKeepsLoose(Apply(s, steps[0]), steps[1..], q, id);
    }
  }

  lemma {:induction false} RunTiesOrLoosens(s: State, steps: seq<Step>, q: QueueId, id: CandidateId)
    requires Inv(s) && Tied(s, q, id)
    ensures if RestagedSince(s, steps, q, id) then Loose(Run(s, steps), q, id) else Tied(Run(s, steps), q, id)
    decreases |steps|
  {
    if steps != [] {
      var t := Apply(s, steps[0]);
      if steps[0] == Restage(id) && q in s.queues && id in s.candidates {
        RunKeepsLoose(t, steps[1..], q, id);
      } else {
        StepKeepsInv(s, steps[0]);
        assert Honest(s, id) && ListsKnown(s, q);
        StepKeepsTied(s, steps[0], q, id);
        RunTiesOrLoosens(t, steps[1..], q, id);
      }
    }
  }

  /** The record waits for a later queue no longer: that queue has failed on it. */
  ghost predicate FailedLater(s: State, id: CandidateId)
    requires id in s.candidates
  {
    var p := s.candidates[id].queue;
    p.Some? && p.value in s.queues && s.queues[p.value].status == FAILED && id in s.queues[p.value].result.errors
  }

  /** In every run: a record that a queue still lists names that queue exactly as long as
      preprocessing was not replayed over it since the submission. It can be queued again
      if and only if it names no queue, or one that has failed on it; and then there was
      such a replay. */
  lemma QueuedAgainIff(steps: seq<Step>, q: QueueId, id: CandidateId)
    requires Awaits(Run(START, steps), q, id)
    ensures var s := Run(START, steps);
      && (s.candidates[id].queue == Some(q) <==> !RestagedSince(START, steps, q, id))
      && (Requeueable(s, id) <==> s.candidates[id].queue.None? || FailedLater(s, id))
      && (Requeueable(s, id) ==> RestagedSince(START, steps, q, id))
  {
    var s := Run(START, steps);
    RunKeepsInv(START, steps);
    RunTiesOrLoosens(START, steps, q, id);
    assert NamesItsQueue(s, id);
  }

  /** One replay is enough: right after it every unprocessed record can be queued. */
  lemma ReplayReopens(s: State, id: CandidateId, p: QueueId, target: Target)
    requires id in s.candidates && s.candidates[id].status != PROCESSED && p !in s.queues
    ensures CanSubmit(Apply(s, Restage(id)), p, s.candidates[id].run, [id])
  {
  }

  ghost function TwiceQueued(id: CandidateId, run: nat, e: EntityId, p: QueueId, q: QueueId, target: Target): seq<Step> {
    [StageNew(id, run, e, false), Submit(p, run, [id], target)] + [Restage(id), Submit(q, run, [id], target)]
  }

  /** The failing run: staged, queued, replayed and queued again, one record waits for two
      queues at once. */
  lemma RestagedIsQueuedTwice(id: CandidateId, run: nat, e: EntityId, p: QueueId, q: QueueId, target: Target)
    requires p != q
    ensures var s := Run(START, TwiceQueued(id, run, e, p, q, target));
      && Awaits(s, p, id) && Awaits(s, q, id)
      && Blocked(s, p, s.candidates[id]) && Promotes(s, q, id)
  {
    RunJoin(START, [StageNew(id, run, e, false), Submit(p, run, [id], target)], [Restage(id), Submit(q, run, [id], target)]);
    var once := StagedAndQueued(id, run, e, p, target);
    RunTwo(once, Restage(id), Submit(q, run, [id], target));
    ReplayReopens(once, id, q, target);
  }

  lemma StagedAndQueued(id: CandidateId, run: nat, e: EntityId, p: QueueId, target: Target) returns (s: State)
    ensures s == Run(START, [StageNew(id, run, e, false), Submit(p, run, [id], target)])
    ensures s.candidates == map[id := Candidate(run, e, false, CONFIRMED, Some(p), None)]
    ensures s.queues == map[p := Queue(run, [id], target, QUEUED, NOTHING)] && s.items == map[]
  {
    RunTwo(START, StageNew(id, run, e, false), Submit(p, run, [id], target));
    s := Apply(Apply(START, StageNew(id, run, e, false)), Submit(p, run, [id], target));
  }

  lemma RunTwo(s: State, a: Step, b: Step)
    ensures Run(s, [a, b]) == Apply(Apply(s, a), b)
  {
    assert [a, b][1..] == [b] && [b][1..] == [];
    assert Run(Apply(s, a), [b]) == Run(Apply(Apply(s, a), b), []);
  }

  lemma {:induction false} RunJoin(s: State, first: seq<Step>, second: seq<Step>)
    ensures Run(s, first + second) == Run(Run(s, first), second)
    decreases |first|
  {
    if first == [] {
      assert first + second == second;
    } else {
      assert (first + second)[1..] == first[1..] + second;
      RunJoin(Apply(s, first[0]), first[1..], second);
    }
  }
}
