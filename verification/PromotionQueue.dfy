/** The two promotion methods as the program writes them, proved against the steps of
    Promotion. */
module PromotionQueues {
  import opened Wrappers
  import opened Promotion

  /** A record of the run that is not processed, and is in no queue or confirmed in one
      that has failed on it. */
  ghost predicate MayBeQueued(id: CandidateId, run: nat, candidates: map<CandidateId, Candidate>, queues: map<QueueId, Queue>) {
    && id in candidates && candidates[id].run == run && candidates[id].status != PROCESSED
    && match candidates[id].queue
       case None => true
       case Some(p) =>
         && candidates[id].status == CONFIRMED
         && p in queues && queues[p].status == FAILED && id in queues[p].result.errors
  }

  /** A confirmed record of this queue, or of none, whose entity is not approved yet. */
  ghost predicate Promotable(id: CandidateId, q: QueueId, candidates: map<CandidateId, Candidate>, items: map<EntityId, EntityStatus>) {
    && id in candidates && candidates[id].status == CONFIRMED && candidates[id].queue in {None, Some(q)}
    && (candidates[id].entity in items ==> items[candidates[id].entity] != ApprovedEntity)
  }

  class GeodataStore {
    var candidates: map<CandidateId, Candidate>
    var queues: map<QueueId, Queue>
    var items: map<EntityId, EntityStatus>
    ghost var known: set<CandidateId>
    ghost var passes: map<WorkerId, Pass>
    ghost var applied: seq<CandidateId>

    ghost function State(): State
      reads this
    {
      Promotion.State(known, candidates, queues, passes, items, applied)
    }

    constructor ()
      ensures State() == START
    {
      candidates, queues, items := map[], map[], map[];
      known, passes, applied := {}, map[], [];
    }

    /** Checks and confirms each listed record once; a refused record rolls the request back. */
    method ProcessImportCandidates(q: QueueId, run: nat, ids: seq<CandidateId>, target: Target) returns (accepted: bool)
      requires q !in queues
      modifies this`candidates, this`queues
      ensures accepted <==> CanSubmit(old(State()), q, run, ids)
      ensures State() == Apply(old(State()), Submit(q, run, ids, target))
      ensures accepted <==> ids != [] && forall id | id in ids :: MayBeQueued(id, run, old(candidates), old(queues))
      ensures accepted ==>
        && queues == old(queues)[q := Queue(run, ids, target, QUEUED, Report([], [], []))]
        && candidates.Keys == old(candidates).Keys
        && forall id | id in candidates :: candidates[id] ==
             (if id in ids then old(candidates)[id].(status := CONFIRMED, queue := Some(q)) else old(candidates)[id])
      ensures !accepted ==> candidates == old(candidates) && queues == old(queues)
    {
      if ids == [] {
        return false;
      }
      var confirmed := candidates;
      var all := set id | id in ids;
      var rest := all;
      while rest != {}
        invariant rest <= all
        invariant confirmed.Keys == candidates.Keys
        invariant forall id | id in candidates ::
          confirmed[id] == (if id in all - rest then candidates[id].(status := CONFIRMED, queue := Some(q)) else candidates[id])
        invariant forall id | id in all - rest :: Requeueable(State(), id) && candidates[id].run == run
        decreases rest
      {
        var id :| id in rest;
        if id !in candidates || candidates[id].run != run {
          return false;
        }
        var c := candidates[id];
        if c.status == PROCESSED {
          return false;
        }
        if c.queue.Some? {
          var p := c.queue.value;
          if c.status != CONFIRMED || p !in queues || queues[p].status != FAILED || id !in queues[p].result.errors {
            return false;
          }
        }
        confirmed := confirmed[id := c.(status := CONFIRMED, queue := Some(q))];
        rest := rest - {id};
      }
      assert confirmed == Submitted(State(), q, run, ids, target).candidates;
      candidates := confirmed;
      queues := queues[q := Queue(run, ids, target, QUEUED, NOTHING)];
      return true;
    }

    /** One listed record, in one transaction. */
    method PromoteOne(ghost w: WorkerId, q: QueueId, id: CandidateId, target: Target, r: Report) returns (report: Report)
      requires w in passes && passes[w].queue == q && q in queues && passes[w].position < |queues[q].ids|
      requires queues[q].ids[passes[w].position] == id && queues[q].target == target && passes[w].report == r
      modifies this`candidates, this`items, this`passes, this`applied
      ensures State() == ProcessOne(old(State()), w)
      ensures report == passes[w].report
      ensures Promotable(id, q, old(candidates), old(items)) ==>
        var c := old(candidates)[id];
        && items == old(items)[c.entity := if target == ToApproved then ApprovedEntity else CandidateEntity]
        && candidates == old(candidates)[id := c.(status := PROCESSED, processedEntity := Some(c.entity))]
        && report == (if c.entity in old(items) then r.(updated := r.updated + [c.entity]) else r.(created := r.created + [c.entity]))
      ensures !Promotable(id, q, old(candidates), old(items)) ==> items == old(items) && candidates == old(candidates)
      ensures !Promotable(id, q, old(candidates), old(items)) && (id !in old(candidates) || old(candidates)[id].status != PROCESSED) ==>
        report == r.(errors := r.errors + [id])
      ensures id in old(candidates) && old(candidates)[id].status == PROCESSED ==>
        match old(candidates)[id].processedEntity
        case None => report == r
        case Some(e) =>
          report == if old(candidates)[id].existing then r.(updated := r.updated + [e]) else r.(created := r.created + [e])
    {
      ghost var before := State();
      report := r;
      if id !in candidates {
        report := r.(errors := r.errors + [id]);
      } else {
        var c := candidates[id];
        if c.status == PROCESSED {
          if c.processedEntity.Some? {
            if c.existing {
              report := r.(updated := r.updated + [c.processedEntity.value]);
            } else {
              report := r.(created := r.created + [c.processedEntity.value]);
            }
          }
        } else if c.status != CONFIRMED || (c.queue.Some? && c.queue.value != q) {
          report := r.(errors := r.errors + [id]);
        } else if c.entity in items && items[c.entity] == ApprovedEntity {
          report := r.(errors := r.errors + [id]);
        } else {
          if c.entity in items {
            report := r.(updated := r.updated + [c.entity]);
          } else {
            report := r.(created := r.created + [c.entity]);
          }
          items := items[c.entity := if target == ToApproved then ApprovedEntity else CandidateEntity];
          candidates := candidates[id := c.(status := PROCESSED, processedEntity := Some(c.entity))];
          applied := applied + [id];
        }
      }
      passes := passes[w := Advanced(before.passes[w], Judge(before, q, id))];
    }

    method ClaimQueue(ghost w: WorkerId, q: QueueId)
      requires w !in passes && q in queues && (queues[q].status == QUEUED || queues[q].status == PROCESSING)
      modifies this`queues, this`passes
      ensures State() == Apply(old(State()), Claim(w, q))
      ensures queues == old(queues)[q := old(queues)[q].(status := PROCESSING)]
      ensures w in passes && passes[w] == Pass(q, 0, NOTHING, [])
    {
      queues := queues[q := queues[q].(status := PROCESSING)];
      passes := passes[w := Pass(q, 0, NOTHING, [])];
    }

    method FinishQueue(ghost w: WorkerId, q: QueueId, report: Report)
      requires w in passes && passes[w].queue == q && q in queues
      requires passes[w].position == |queues[q].ids| && passes[w].report == report
      modifies this`queues, this`passes
      ensures State() == Apply(old(State()), Finish(w)) && passes == old(passes) - {w}
      ensures queues == old(queues)[q := old(queues)[q].(status := if report.errors == [] then COMPLETED else FAILED, result := report)]
    {
      queues := queues[q := queues[q].(status := if report.errors == [] then COMPLETED else FAILED, result := report)];
      passes := passes - {w};
    }

    /** An exception other than a refusal ends the pass where it stands. */
    method Abandon(ghost w: WorkerId)
      modifies this`passes
      ensures State() == Apply(old(State()), Crash(w)) && passes == old(passes) - {w}
    {
      passes := passes - {w};
    }

    /** The loop over the listed records; `raised` when something other than a refusal
        stopped it before the record at position n. */
    method PromoteAll(ghost w: WorkerId, q: QueueId, ids: seq<CandidateId>, target: Target, ghost start: State)
      returns (report: Report, raised: bool, ghost n: nat)
      requires q in queues && queues[q].ids == ids && queues[q].target == target
      requires w in passes && passes[w] == Pass(q, 0, NOTHING, [])
      requires State() == Run(start, PartialPass(w, q, 0))
      modifies this`candidates, this`items, this`passes, this`applied
      ensures n <= |ids| && (!raised ==> n == |ids|)
      ensures w in passes && passes[w].queue == q && passes[w].position == n && passes[w].report == report
      ensures State() == Run(start, PartialPass(w, q, n))
    {
      report, raised, n := NOTHING, false, 0;
      for i := 0 to |ids|
        invariant n == i && w in passes && passes[w].queue == q && passes[w].position == i && passes[w].report == report
        invariant !raised && State() == Run(start, PartialPass(w, q, i))
      {
        var fails: bool := *;
        if fails {
          raised := true;
          return;
        }
        RunSnoc(start, PartialPass(w, q, i), One(w));
        report := PromoteOne(w, q, ids[i], target, report);
        n := i + 1;
      }
    }

    /** One delivery of a queue's message. Redeliver: somebody else holds a live lease on
        the queue. Raised: an exception; then a claimed queue stays claimed, with the
        records before the exception promoted, and the next delivery after the lease has
        expired starts over. */
    method ProcessImportQueue(ghost w: WorkerId, q: QueueId, leaseExpired: bool) returns (end: End, ghost n: nat)
      requires w !in passes
      modifies this`candidates, this`items, this`queues, this`passes, this`applied
      ensures var claims := q in old(queues) &&
          (old(queues)[q].status == QUEUED || (old(queues)[q].status == PROCESSING && leaseExpired));
        && (claims && end.Settled? ==> State() == Run(old(State()), WholePass(w, q, |old(queues)[q].ids|)))
        && (claims && end.Raised? ==>
            State() == old(State()) ||
            (n <= |old(queues)[q].ids| && State() == Run(old(State()), PartialPass(w, q, n) + [Crash(w)])))
        && (!claims ==> State() == old(State()))
        && (end.Redeliver? ==> q in old(queues) && old(queues)[q].status == PROCESSING && !leaseExpired)
        && (end.Settled? ==> claims || q !in old(queues) || old(queues)[q].status == COMPLETED || old(queues)[q].status == FAILED)
      ensures w !in passes
    {
      n := 0;
      var fails: bool := *;
      if fails {
        return Raised, 0;
      }
      if q !in queues || queues[q].status == COMPLETED || queues[q].status == FAILED {
        return Settled, 0;
      }
      if queues[q].status == PROCESSING && !leaseExpired {
        return Redeliver, 0;
      }
      ghost var start := State();
      var ids, target := queues[q].ids, queues[q].target;
      ClaimRun(start, w, q);
      ClaimQueue(w, q);
      var report, raised;
      report, raised, n := PromoteAll(w, q, ids, target, start);
      fails := *;
      if raised || fails {
        RunSnoc(start, PartialPass(w, q, n), Crash(w));
        Abandon(w);
        return Raised, n;
      }
      RunSnoc(start, PartialPass(w, q, |ids|), Finish(w));
      FinishQueue(w, q, report);
      return Settled, n;
    }
  }

  /** How a delivery ends: acknowledged, given back, or by an exception. */
  datatype End = Settled | Redeliver | Raised

  ghost function PartialPass(w: WorkerId, q: QueueId, n: nat): seq<Step> {
    if n == 0 then [Claim(w, q)] else PartialPass(w, q, n - 1) + [One(w)]
  }

  /** Claim, one step for each listed record, completion. */
  ghost function WholePass(w: WorkerId, q: QueueId, n: nat): seq<Step> {
    PartialPass(w, q, n) + [Finish(w)]
  }

  lemma ClaimRun(s: State, w: WorkerId, q: QueueId)
    ensures Run(s, [Claim(w, q)]) == Apply(s, Claim(w, q))
  {
    assert [Claim(w, q)][1..] == [];
    assert Run(Apply(s, Claim(w, q)), []) == Apply(s, Claim(w, q));
  }

  lemma {:induction false} RunSnoc(s: State, steps: seq<Step>, last: Step)
    ensures Run(s, steps + [last]) == Apply(Run(s, steps), last)
    decreases |steps|
  {
    if steps == [] {
      assert ([] + [last])[1..] == [];
      assert Run(Apply(s, last), []) == Apply(s, last);
    } else {
      assert (steps + [last])[1..] == steps[1..] + [last];
      RunSnoc(Apply(s, steps[0]), steps[1..], last);
    }
  }
}
