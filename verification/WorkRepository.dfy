/** The repository methods of the work queue, updating the tables in place. */
module WorkRepositories {
  import opened Wrappers
  import opened WorkTables
  import Spec = WorkTables

  class WorkRepository {
    var jobs: map<JobId, Job>
    var keys: map<string, JobId>
    var outbox: map<EventId, OutboxRow>
    var deadLetters: seq<DeadLetter>
    var audits: seq<Audit>
    ghost var issued: map<Token, JobId>

    ghost function State(): Db
      reads this
    {
      Db(jobs, keys, outbox, deadLetters, audits, issued)
    }

    constructor ()
      ensures State() == EMPTY
    {
      jobs, keys, outbox, deadLetters, audits, issued := map[], map[], map[], [], [], map[];
    }

    /** The first command of a queued job of a registered kind, if it is not there. */
    ghost predicate Unsent(e: EventId, outbox: map<EventId, OutboxRow>)
      reads this`jobs
    {
      && e.ForJob? && e !in outbox
      && e.jobId in jobs && jobs[e.jobId].status == QUEUED && !jobs[e.jobId].kind.Unregistered?
    }

    method EnqueueJob(newId: JobId, kind: Kind, key: Option<string>, now: int) returns (id: JobId)
      modifies this
      ensures (State(), id) == Spec.Enqueue(old(State()), newId, kind, key, now)
      ensures key.Some? && key.value in old(keys) ==> id == old(keys)[key.value] && jobs == old(jobs) && keys == old(keys)
      ensures key.None? || key.value !in old(keys) ==>
        id == newId && jobs == old(jobs)[newId := Job(kind, QUEUED, 0, now, None, None)]
      ensures key.Some? ==> keys == old(keys)[key.value := id]
      ensures outbox == if kind.Unregistered? || ForJob(id) in old(outbox) then old(outbox)
                        else old(outbox)[ForJob(id) := OutboxRow(id, kind, Pending)]
    {
      id := newId;
      if key.Some? && key.value in keys {
        id := keys[key.value];
      } else {
        jobs := jobs[newId := Job(kind, QUEUED, 0, now, None, None)];
      }
      if key.Some? {
        keys := keys[key.value := id];
      }
      if Registered(kind) && ForJob(id) !in outbox {
        outbox := outbox[ForJob(id) := OutboxRow(id, kind, Pending)];
      }
    }

    method ClaimWorkJob(j: JobId, token: Token, now: int) returns (claimed: bool)
      modifies this
      ensures (State(), claimed) == Spec.Claim(old(State()), j, token, now)
      ensures claimed <==>
        j in old(jobs) && !old(jobs)[j].kind.Unregistered? && old(jobs)[j].availableAt <= now &&
        (old(jobs)[j].status == QUEUED ||
         (old(jobs)[j].status == RUNNING && old(jobs)[j].leaseExpiresAt.Some? && old(jobs)[j].leaseExpiresAt.value < now))
      ensures claimed ==>
        jobs == old(jobs)[j := old(jobs)[j].(status := RUNNING, attempts := old(jobs)[j].attempts + 1,
                                             leaseExpiresAt := Some(now + 120), leaseToken := Some(token))]
      ensures !claimed ==> State() == old(State())
    {
      claimed := false;
      if j in jobs {
        var job := jobs[j];
        var expired := job.leaseExpiresAt.Some? && job.leaseExpiresAt.value < now;
        if Registered(job.kind) && job.availableAt <= now && (job.status == QUEUED || (job.status == RUNNING && expired)) {
          jobs := jobs[j := job.(status := RUNNING, attempts := job.attempts + 1,
                                 leaseExpiresAt := Some(now + LEASE_SECONDS), leaseToken := Some(token))];
          issued := issued[token := j];
          claimed := true;
        }
      }
    }

    method HeartbeatWorkJob(j: JobId, token: Token, now: int) returns (held: bool)
      modifies this`jobs
      ensures (State(), held) == Spec.Heartbeat(old(State()), j, token, now)
      ensures held <==> j in old(jobs) && old(jobs)[j].status == RUNNING && old(jobs)[j].leaseToken == Some(token)
      ensures !held ==> State() == old(State())
      ensures held ==> jobs == old(jobs)[j := old(jobs)[j].(leaseExpiresAt := Some(now + 120))]
    {
      held := j in jobs && jobs[j].status == RUNNING && jobs[j].leaseToken == Some(token);
      if held {
        jobs := jobs[j := jobs[j].(leaseExpiresAt := Some(now + LEASE_SECONDS))];
      }
    }

    /** False stands for the RuntimeError of a lost lease, here and below. */
    method RetryWorkJob(j: JobId, token: Token, delay: nat, now: int) returns (held: bool)
      modifies this`jobs
      ensures (State(), held) == Spec.Retry(old(State()), j, token, delay, now)
      ensures held <==> j in old(jobs) && old(jobs)[j].status == RUNNING && old(jobs)[j].leaseToken == Some(token)
      ensures !held ==> State() == old(State())
      ensures held ==> jobs == old(jobs)[j := old(jobs)[j].(status := QUEUED, availableAt := now + delay,
                                                            leaseExpiresAt := None, leaseToken := None)]
    {
      held := j in jobs && jobs[j].status == RUNNING && jobs[j].leaseToken == Some(token);
      if held {
        jobs := jobs[j := jobs[j].(status := QUEUED, availableAt := now + delay, leaseExpiresAt := None, leaseToken := None)];
      }
    }

    method CompleteJob(j: JobId, token: Token) returns (held: bool)
      modifies this`jobs
      ensures (State(), held) == Spec.Complete(old(State()), j, token)
      ensures held <==> j in old(jobs) && old(jobs)[j].status == RUNNING && old(jobs)[j].leaseToken == Some(token)
      ensures !held ==> State() == old(State())
      ensures held ==> jobs == old(jobs)[j := old(jobs)[j].(status := SUCCEEDED, leaseExpiresAt := None, leaseToken := None)]
    {
      held := j in jobs && jobs[j].status == RUNNING && jobs[j].leaseToken == Some(token);
      if held {
        jobs := jobs[j := jobs[j].(status := SUCCEEDED, leaseExpiresAt := None, leaseToken := None)];
      }
    }

    method FailWorkJob(j: JobId, token: Token, source: MessageId) returns (held: bool)
      modifies this`jobs, this`deadLetters
      ensures (State(), held) == Spec.Fail(old(State()), j, token, source)
      ensures held <==> j in old(jobs) && old(jobs)[j].status == RUNNING && old(jobs)[j].leaseToken == Some(token)
      ensures !held ==> State() == old(State())
      ensures held ==> jobs == old(jobs)[j := old(jobs)[j].(status := FAILED, leaseExpiresAt := None, leaseToken := None)]
      ensures held ==> deadLetters == old(deadLetters) + [DeadLetter(Some(j), false, source)]
    {
      held := j in jobs && jobs[j].status == RUNNING && jobs[j].leaseToken == Some(token);
      if held {
        jobs := jobs[j := jobs[j].(status := FAILED, leaseExpiresAt := None, leaseToken := None)];
        deadLetters := deadLetters + [DeadLetter(Some(j), false, source)];
      }
    }

    method RecordWorkDeadLetter(workId: Option<JobId>, source: MessageId)
      modifies this`deadLetters
      ensures State() == Spec.RecordDeadLetter(old(State()), workId, source)
    {
      deadLetters := deadLetters + [DeadLetter(workId, false, source)];
    }

    method RedriveFailedWorkJob(j: JobId, actor: string, reason: string, now: int) returns (r: Result<EventId, RedriveError>)
      modifies this
      ensures r.Success? <==> RedriveJob(old(State()), j, actor, reason, now).Success?
      ensures r.Success? ==>
        && State() == RedriveJob(old(State()), j, actor, reason, now).value
        && r.value == Redrive(|old(audits)|)
      ensures r.Failure? ==> State() == old(State()) && r.error == RedriveJob(old(State()), j, actor, reason, now).error
      ensures r.Success? <==>
        1 <= |Trimmed(actor)| <= 120 && 1 <= |Trimmed(reason)| <= 500 &&
        j in old(jobs) && old(jobs)[j].status in {FAILED, QUEUED} && !old(jobs)[j].kind.Unregistered?
      ensures r.Success? ==>
        && outbox == old(outbox)[r.value := OutboxRow(j, old(jobs)[j].kind, Pending)]
        && audits == old(audits) + [Audit(j, r.value)]
        && jobs == (if old(jobs)[j].status == FAILED
                    then old(jobs)[j := old(jobs)[j].(status := QUEUED, availableAt := now, leaseExpiresAt := None, leaseToken := None)]
                    else old(jobs))
        && |deadLetters| == |old(deadLetters)|
        && forall i :: 0 <= i < |deadLetters| ==>
             deadLetters[i] == old(deadLetters)[i].(resolved := old(deadLetters)[i].resolved || old(deadLetters)[i].workId == Some(j))
      ensures r.Failure? ==>
        && (r.error == BadAudit <==> !(1 <= |Trimmed(actor)| <= 120 && 1 <= |Trimmed(reason)| <= 500))
        && (r.error == MissingJob ==> j !in old(jobs))
        && (r.error == NotRedrivable ==> j in old(jobs) && old(jobs)[j].status !in {FAILED, QUEUED})
        && (r.error == UnregisteredKind ==> j in old(jobs) && old(jobs)[j].kind.Unregistered? && old(jobs)[j].status in {FAILED, QUEUED})
    {
      if !AuditAccepts(actor, reason) {
        return Failure(BadAudit);
      }
      if j !in jobs {
        return Failure(MissingJob);
      }
      var job := jobs[j];
      if job.status != FAILED && job.status != QUEUED {
        return Failure(NotRedrivable);
      }
      if !Registered(job.kind) {
        return Failure(UnregisteredKind);
      }
      if job.status == FAILED {
        jobs := jobs[j := job.(status := QUEUED, availableAt := now, leaseExpiresAt := None, leaseToken := None)];
      }
      var e := Redrive(|audits|);
      outbox := outbox[e := OutboxRow(j, job.kind, Pending)];
      audits := audits + [Audit(j, e)];
      deadLetters := Resolve(deadLetters, j);
      return Success(e);
    }

    /** Returns the number of commands inserted. */
    method ReconcileQueuedWorkOutbox() returns (repaired: nat)
      modifies this`outbox
      ensures State() == Spec.Reconcile(old(State()))
      ensures repaired == |Missing(old(outbox), QueuedWork(jobs))|
      ensures forall e :: e in outbox <==> e in old(outbox) || Unsent(e, old(outbox))
      ensures forall e :: e in old(outbox) ==> outbox[e] == old(outbox)[e]
      ensures forall e :: Unsent(e, old(outbox)) ==> e in outbox && outbox[e] == OutboxRow(e.jobId, jobs[e.jobId].kind, Pending)
    {
      repaired := 0;
      ghost var before := outbox;
      var queued := QueuedWork(jobs);
      var rest := queued;
      while rest != {}
        invariant rest <= queued
        invariant outbox == Repaired(jobs, before, queued - rest)
        invariant repaired == |Missing(before, queued - rest)|
        decreases rest
      {
        var j :| j in rest;
        assert queued - (rest - {j}) == (queued - rest) + {j};
        RepairOneMore(jobs, before, queued - rest, j);
        if ForJob(j) !in outbox {
          outbox := outbox[ForJob(j) := OutboxRow(j, jobs[j].kind, Pending)];
          repaired := repaired + 1;
        }
        rest := rest - {j};
      }
      assert queued - {} == queued;
      forall e
        ensures e in outbox <==> e in before || Unsent(e, before)
        ensures e in before ==> outbox[e] == before[e]
        ensures Unsent(e, before) ==> e in outbox && outbox[e] == OutboxRow(e.jobId, jobs[e.jobId].kind, Pending)
      {
        RepairedAt(jobs, before, queued, e);
      }
    }
  }

  lemma RepairedAt(jobs: map<JobId, Job>, outbox: map<EventId, OutboxRow>, ids: set<JobId>, e: EventId)
    requires ids <= jobs.Keys
    ensures e in Repaired(jobs, outbox, ids) <==> e in outbox || (e.ForJob? && e.jobId in ids)
    ensures e in outbox ==> Repaired(jobs, outbox, ids)[e] == outbox[e]
    ensures e !in outbox && e.ForJob? && e.jobId in ids ==>
      Repaired(jobs, outbox, ids)[e] == OutboxRow(e.jobId, jobs[e.jobId].kind, Pending)
  {
    assert e in FirstCommands(ids) <==> e.ForJob? && e.jobId in ids;
  }

  lemma MissingOneMore(outbox: map<EventId, OutboxRow>, ids: set<JobId>, j: JobId)
    requires j !in ids
    ensures |Missing(outbox, ids + {j})| == |Missing(outbox, ids)| + (if ForJob(j) in outbox then 0 else 1)
  {
    assert Missing(outbox, ids + {j}) == Missing(outbox, ids) + (if ForJob(j) in outbox then {} else {j});
  }

  lemma RepairOneMore(jobs: map<JobId, Job>, outbox: map<EventId, OutboxRow>, ids: set<JobId>, j: JobId)
    requires ids <= jobs.Keys && j in jobs && j !in ids
    ensures Repaired(jobs, outbox, ids + {j}) ==
            if ForJob(j) in outbox then Repaired(jobs, outbox, ids)
            else Repaired(jobs, outbox, ids)[ForJob(j) := OutboxRow(j, jobs[j].kind, Pending)]
    ensures |Missing(outbox, ids + {j})| == |Missing(outbox, ids)| + (if ForJob(j) in outbox then 0 else 1)
    ensures ForJob(j) in Repaired(jobs, outbox, ids) <==> ForJob(j) in outbox
  {
    MissingOneMore(outbox, ids, j);
    RepairedAt(jobs, outbox, ids, ForJob(j));
    var row := OutboxRow(j, jobs[j].kind, Pending);
    var x := Repaired(jobs, outbox, ids + {j});
    var y := if ForJob(j) in outbox then Repaired(jobs, outbox, ids) else Repaired(jobs, outbox, ids)[ForJob(j) := row];
    forall e
      ensures e in x <==> e in y
      ensures e in x && e in y ==> x[e] == y[e]
    {
      RepairedAt(jobs, outbox, ids, e);
      RepairedAt(jobs, outbox, ids + {j}, e);
    }
    assert x == y;
  }
}
