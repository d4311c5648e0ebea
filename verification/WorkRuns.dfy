/** Safety of the work protocol over whole runs. */
module WorkRuns {
  import opened Wrappers
  import opened WorkTables
  import opened WorkProtocol
  import opened WorkSafety

  // ---------------------------------------------------------------- the newest command stays unsettled

  lemma LatestAppended(audits: seq<Audit>, a: Audit, j: JobId)
    ensures Latest(audits + [a], j) == if a.jobId == j then a.eventId else Latest(audits, j)
  {
    assert (audits + [a])[..|audits|] == audits;
  }

  lemma {:induction false} LatestWithout(audits: seq<Audit>, j: JobId)
    requires forall i :: 0 <= i < |audits| ==> audits[i].jobId != j
    ensures Latest(audits, j) == ForJob(j)
    decreases |audits|
  {
    if audits != [] {
      LatestWithout(audits[..|audits| - 1], j);
    }
  }

  // An open job after a step was open before with the same newest command, or its newest
  // command is one the outbox did not hold.

  ghost predicate OpenFrom(s: Db, t: Db, j: JobId) {
    Open(t, j) ==>
      || (Open(s, j) && Latest(t.audits, j) == Latest(s.audits, j))
      || Latest(t.audits, j) !in s.outbox
  }

  lemma UnauditedLatest(db: Db, j: JobId)
    requires TablesFit(db) && j !in db.jobs
    ensures Latest(db.audits, j) == ForJob(j) && ForJob(j) !in db.outbox
  {
    forall i: nat | i < |db.audits| ensures db.audits[i].jobId != j {
      assert AuditFits(db, i);
    }
    LatestWithout(db.audits, j);
    forall e | e in db.outbox && e.ForJob? ensures e.jobId in db.jobs {
      assert RowFits(db, e);
    }
  }

  lemma QueueOpens(db: Db, op: QueueOp, now: int, j: JobId)
    requires TablesFit(db)
    ensures OpenFrom(db, ApplyQueue(db, op, now), j)
  {
    match op
    case EnqueueJob(newId, kind, key) =>
      if j !in db.jobs {
        UnauditedLatest(db, j);
      }
    case RedriveFailed(i, actor, reason) =>
      LatestAppended(db.audits, Audit(i, Redrive(|db.audits|)), j);
      RedriveIsNew(db);
    case ReconcileQueued =>
      ReconcileIsNoOp(db);
  }

  // ---------------------------------------------------------------- each step keeps the newest command safe

  lemma QueueKeepsVital(s: System, op: QueueOp)
    requires Fits(s) && VitalIsSafe(s)
    ensures VitalIsSafe(s.(db := ApplyQueue(s.db, op, s.now)))
  {
    var t := s.(db := ApplyQueue(s.db, op, s.now));
    forall m | Vital(t, m) ensures Vital(s, m) {
      QueueOpens(s.db, op, s.now, t.broker[m].command.value.jobId);
      assert MessageFits(s, m);
    }
  }

  lemma TransportKeepsVital(s: System, t: System, mayGiveUp: bool)
    requires Fits(s) && VitalIsSafe(s) && TransportEffect(s, t, mayGiveUp)
    ensures VitalIsSafe(t)
  {
    forall m | Vital(t, m) && m in s.broker ensures Vital(s, m) {
    }
    forall w | w in t.workers && Vital(t, t.workers[w].message)
      ensures !t.workers[w].AckDue? && !t.workers[w].LastAckDue? && !t.workers[w].TermDue?
    {
      if w in s.workers {
        assert WorkerFits(s, w);
        assert t.workers[w] == s.workers[w];
      }
    }
  }

  lemma WorkKeepsVital(s: System, t: System, w: WorkerId)
    requires Fits(s) && VitalIsSafe(s) && WorkEffect(s, t, w)
    ensures VitalIsSafe(t)
  {
    forall m | Vital(t, m) ensures Vital(s, m) && t.broker[m].settlement == Unsettled {
      WorkVitalOrigin(s, t, w, m);
    }
    forall x | x in t.workers && Vital(t, t.workers[x].message)
      ensures !AckPending(t.workers[x]) && !t.workers[x].TermDue?
    {
      WorkVitalOrigin(s, t, w, t.workers[x].message);
      assert WorkerFits(s, x);
      if HasCommand(s, x) {
        CommandNamesJob(s, x);
      }
    }
  }

  lemma WorkVitalOrigin(s: System, t: System, w: WorkerId, m: MessageId)
    requires VitalIsSafe(s) && WorkEffect(s, t, w) && Vital(t, m)
    ensures Vital(s, m) && t.broker[m].settlement == Unsettled
  {
    var j := t.broker[m].command.value.jobId;
    assert t.db.jobs[j] == s.db.jobs[j] || RowMove(s.db, s.db.jobs[j], t.db.jobs[j]);
  }

  lemma TransportKeepsCarried(s: System, t: System, mayGiveUp: bool)
    requires PublishedIsCarried(s) && TransportEffect(s, t, mayGiveUp)
    ensures PublishedIsCarried(t)
  {
    forall e | e in t.db.outbox && t.db.outbox[e].state == Published
      ensures exists m :: m in t.broker && Carries(t.broker, m, e)
    {
      assert OutboxRowTransport(s, t, mayGiveUp, e);
      var m :| m in s.broker && Carries(s.broker, m, e);
      assert m in t.broker && Carries(t.broker, m, e);
    }
  }

  lemma WorkKeepsCarried(s: System, t: System, w: WorkerId)
    requires PublishedIsCarried(s) && WorkEffect(s, t, w)
    ensures PublishedIsCarried(t)
  {
    forall e | e in t.db.outbox && t.db.outbox[e].state == Published
      ensures exists m :: m in t.broker && Carries(t.broker, m, e)
    {
      var m :| m in s.broker && Carries(s.broker, m, e);
      assert m in t.broker && Carries(t.broker, m, e);
    }
  }

  lemma NewRowsArePending(db: Db, op: QueueOp, now: int, e: EventId)
    requires TablesFit(db) && e in ApplyQueue(db, op, now).outbox && e !in db.outbox
    ensures ApplyQueue(db, op, now).outbox[e].state == Pending
  {
    if op.ReconcileQueued? {
      ReconcileIsNoOp(db);
    }
  }

  lemma QueueKeepsCarried(s: System, op: QueueOp)
    requires TablesFit(s.db) && PublishedIsCarried(s)
    ensures PublishedIsCarried(s.(db := ApplyQueue(s.db, op, s.now)))
  {
    var t := s.(db := ApplyQueue(s.db, op, s.now));
    QueueKeepsTables(s.db, op, s.now);
    forall e | e in t.db.outbox && t.db.outbox[e].state == Published
      ensures exists m :: m in t.broker && Carries(t.broker, m, e)
    {
      if e !in s.db.outbox {
        NewRowsArePending(s.db, op, s.now, e);
      }
    }
  }

  // ---------------------------------------------------------------- the invariant of every run

  lemma WorkKeepsInv(s: System, w: WorkerId, act: Act)
    requires Inv(s)
    ensures Inv(ApplyWork(s, w, act))
  {
    var t := ApplyWork(s, w, act);
    EveryWorkEffect(s, w, act);
    WorkKeepsDb(s, w, act);
    WorkKeepsFits(s, t, w);
    WorkKeepsBeliefs(s, t, w);
    WorkKeepsTerms(s, t, w);
    WorkKeepsVital(s, t, w);
    WorkKeepsCarried(s, t, w);
  }

  lemma TransportKeepsInv(s: System, move: Move)
    requires Inv(s)
    ensures Inv(ApplyTransport(s, move))
  {
    var t := ApplyTransport(s, move);
    EveryTransportEffect(s, move);
    SameDbFacts(s.db, t.db);
    TransportKeepsFits(s, t, move.GiveUp?);
    TransportKeepsBeliefs(s, t, move.GiveUp?);
    TransportKeepsTerms(s, t, move.GiveUp?);
    TransportKeepsVital(s, t, move.GiveUp?);
    TransportKeepsCarried(s, t, move.GiveUp?);
  }

  lemma QueueKeepsInv(s: System, op: QueueOp)
    requires Inv(s)
    ensures Inv(s.(db := ApplyQueue(s.db, op, s.now)))
  {
    QueueKeepsDb(s.db, op, s.now);
    QueueKeepsFits(s, op);
    QueueKeepsBeliefs(s, op);
    QueueKeepsTerms(s, op);
    QueueKeepsVital(s, op);
    QueueKeepsCarried(s, op);
  }

  lemma TickKeepsInv(s: System, seconds: nat)
    requires Inv(s)
    ensures Inv(s.(now := s.now + seconds))
  {
    var t := s.(now := s.now + seconds);
    assert forall m | m in s.broker :: MessageFits(s, m) == MessageFits(t, m);
    assert forall w | w in s.workers :: WorkerFits(s, w) == WorkerFits(t, w) && BeliefFits(s, w) == BeliefFits(t, w);
    assert forall m :: Vital(t, m) == Vital(s, m);
  }

  /** Every step of the protocol keeps the whole invariant. */
  lemma StepKeepsInv(s: System, step: Step)
    requires Inv(s)
    ensures Inv(Apply(s, step))
  {
    match step
    case Tick(seconds) => TickKeepsInv(s, seconds);
    case Queue(op) => QueueKeepsInv(s, op);
    case Transport(move) => TransportKeepsInv(s, move);
    case Work(w, act) => WorkKeepsInv(s, w, act);
  }

  lemma InitInv(now: int)
    ensures Inv(Init(now))
  {
  }

  lemma {:induction false} RunKeepsInv(s: System, steps: seq<Step>)
    requires Inv(s)
    ensures Inv(Run(s, steps))
    decreases |steps|
  {
    if steps != [] {
      StepKeepsInv(s, steps[0]);
      RunKeepsInv(Apply(s, steps[0]), steps[1..]);
    }
  }

  // ---------------------------------------------------------------- no accepted job is forgotten

  ghost predicate Deliverable(s: System, m: MessageId)
    requires m in s.broker
  {
    s.broker[m].settlement == Unsettled && s.broker[m].delivered < MAX_DELIVERIES
  }

  ghost predicate Held(s: System, m: MessageId) {
    exists w :: w in s.workers && s.workers[w].message == m
  }

  /** Eight deliveries were lost: the message is unsettled, but nobody will see it again. */
  ghost predicate Exhausted(s: System, m: MessageId)
    requires m in s.broker
  {
    s.broker[m].settlement == Unsettled && s.broker[m].delivered == MAX_DELIVERIES && !Held(s, m)
  }

  /** Somebody is still responsible for the command, or its deliveries are exhausted. */
  ghost predicate Accounted(s: System, e: EventId) {
    && e in s.db.outbox
    && (s.db.outbox[e].state != Published ||
        exists m :: m in s.broker && Carries(s.broker, m, e) && (Deliverable(s, m) || Held(s, m) || Exhausted(s, m)))
  }

  /** In every reachable state an accepted job of a registered kind is finished, or its
      newest command waits in the outbox (pending, or dead-lettered by the relay), or a
      message carrying it can still be delivered, is held by a worker, or is exhausted. */
  lemma NoJobIsForgotten(now: int, steps: seq<Step>, j: JobId)
    ensures var s := Run(Init(now), steps);
      Open(s.db, j) ==> Accounted(s, Latest(s.db.audits, j))
  {
    var s := Run(Init(now), steps);
    InitInv(now);
    RunKeepsInv(Init(now), steps);
    if Open(s.db, j) {
      OpenIsAccounted(s, j);
    }
  }

  lemma OpenIsAccounted(s: System, j: JobId)
    requires Inv(s) && Open(s.db, j)
    ensures Accounted(s, Latest(s.db.audits, j))
  {
    var e := Latest(s.db.audits, j);
    LatestIsCommanded(s.db, j);
    if s.db.outbox[e].state == Published {
      var m :| m in s.broker && Carries(s.broker, m, e);
      assert MessageFits(s, m);
      assert Vital(s, m);
      assert s.broker[m].delivered <= MAX_DELIVERIES;
      assert Deliverable(s, m) || Held(s, m) || Exhausted(s, m);
    }
  }

  lemma LatestIsCommanded(db: Db, j: JobId)
    requires TablesFit(db) && j in db.jobs && Registered(db.jobs[j].kind)
    ensures Latest(db.audits, j) in db.outbox && db.outbox[Latest(db.audits, j)].jobId == j
  {
    LatestIsAudited(db.audits, j);
    var e := Latest(db.audits, j);
    if e == ForJob(j) {
      assert RowFits(db, e);
    } else {
      var i: nat :| i < |db.audits| && db.audits[i].jobId == j && db.audits[i].eventId == e;
      assert AuditFits(db, i);
      assert RowFits(db, e);
    }
  }

  lemma {:induction false} LatestIsAudited(audits: seq<Audit>, j: JobId)
    ensures Latest(audits, j) == ForJob(j) ||
            exists i: nat :: i < |audits| && audits[i].jobId == j && audits[i].eventId == Latest(audits, j)
    decreases |audits|
  {
    if audits != [] {
      LatestIsAudited(audits[..|audits| - 1], j);
      var front := audits[..|audits| - 1];
      if i: nat :| i < |front| && front[i].jobId == j && front[i].eventId == Latest(front, j) {
        assert audits[i] == front[i];
      }
    }
  }

  // ---------------------------------------------------------------- when the deliveries run out

  /** Worker w alone holds the message. */
  ghost predicate LastHolder(s: System, w: WorkerId, m: MessageId) {
    && w in s.workers && s.workers[w].message == m
    && forall x | x in s.workers && s.workers[x].message == m :: x == w
  }

  /** The worker ends here without settling its message: it stops, gives the message back,
      fails to answer at the very end, or finds its lease lost while it records a failure. */
  ghost predicate Quits(s: System, w: WorkerId, act: Act)
    requires w in s.workers
  {
    var p := s.workers[w];
    || act.Crash?
    || (act.Nak? && p.NakDue?)
    || (act.Raise? && HasCommand(s, w) && (p.NakDue? || p.LastAckDue?))
    || (act.Recover? && HasCommand(s, w) && p.Failing? && p.lease.Some? && !Holds(s.db, CommandOf(s, w).jobId, p.lease.value))
  }

  /** The last holder of an unsettled message quits when all deliveries have been made. */
  ghost predicate Exhausts(s: System, step: Step, m: MessageId) {
    && step.Work? && m in s.broker
    && s.broker[m].settlement == Unsettled && s.broker[m].delivered == MAX_DELIVERIES
    && LastHolder(s, step.worker, m) && Quits(s, step.worker, step.act)
  }

  ghost predicate RunExhausts(s: System, steps: seq<Step>, m: MessageId)
    decreases |steps|
  {
    steps != [] && (Exhausts(s, steps[0], m) || RunExhausts(Apply(s, steps[0]), steps[1..], m))
  }

  ghost predicate IsExhausted(s: System, m: MessageId) {
    m in s.broker && Exhausted(s, m)
  }

  lemma QuitterLeaves(s: System, w: WorkerId, act: Act)
    requires w in s.workers && Quits(s, w, act)
    ensures ApplyWork(s, w, act).broker == s.broker && ApplyWork(s, w, act).workers == s.workers - {w}
  {
  }

  lemma ExhaustsExhausts(s: System, step: Step, m: MessageId)
    requires Exhausts(s, step, m)
    ensures IsExhausted(Apply(s, step), m)
  {
    QuitterLeaves(s, step.worker, step.act);
  }

  lemma RecoverLeavesHow(s: System, w: WorkerId)
    requires w in s.workers && w !in ApplyRecover(s, w).workers
    ensures Quits(s, w, Recover)
  {
  }

  lemma RaiseLeavesHow(s: System, w: WorkerId)
    requires w in s.workers && w !in ApplyRaise(s, w).workers
    ensures Quits(s, w, Raise)
  {
  }

  lemma AnswerLeavesHow(s: System, w: WorkerId, act: Act)
    requires w in s.workers && w !in ApplyAnswer(s, w, act).workers && s.workers[w].message in s.broker
    requires ApplyAnswer(s, w, act).broker[s.workers[w].message].settlement == Unsettled
    ensures Quits(s, w, act)
  {
  }

  lemma OtherActsStay(s: System, w: WorkerId, act: Act)
    requires w in s.workers && (act.Reject? || act.ClaimJob? || act.ClaimUnseen? || act.Look? || act.Beat? || act.Finish?)
    ensures w in ApplyWork(s, w, act).workers
  {
  }

  /** A worker that leaves its message unsettled has quit. */
  lemma LeavesHow(s: System, w: WorkerId, act: Act)
    requires w in s.workers && w !in ApplyWork(s, w, act).workers
    requires var m := s.workers[w].message;
      m in s.broker && m in ApplyWork(s, w, act).broker && ApplyWork(s, w, act).broker[m].settlement == Unsettled
    ensures Quits(s, w, act)
  {
    match act
    case Recover => RecoverLeavesHow(s, w);
    case Raise => RaiseLeavesHow(s, w);
    case Ack => AnswerLeavesHow(s, w, act);
    case Nak => AnswerLeavesHow(s, w, act);
    case Term => AnswerLeavesHow(s, w, act);
    case Crash =>
    case _ => OtherActsStay(s, w, act);
  }

  lemma WorkExhausts(s: System, w: WorkerId, act: Act, m: MessageId)
    requires Fits(s) && !IsExhausted(s, m) && IsExhausted(ApplyWork(s, w, act), m)
    ensures Exhausts(s, Work(w, act), m)
  {
    var t := ApplyWork(s, w, act);
    EveryWorkEffect(s, w, act);
    assert t.broker[m] == s.broker[m];
    var x :| x in s.workers && s.workers[x].message == m;
    forall y | y in s.workers && s.workers[y].message == m ensures y == w && y !in t.workers {
      assert !Held(t, m);
    }
    LeavesHow(s, w, act);
  }

  lemma TransportExhaustsNothing(s: System, move: Move, m: MessageId)
    requires IsExhausted(ApplyTransport(s, move), m)
    ensures IsExhausted(s, m)
  {
    var t := ApplyTransport(s, move);
    EveryTransportEffect(s, move);
    forall w | w in s.workers ensures s.workers[w].message != m {
      assert w in t.workers && t.workers[w] == s.workers[w];
    }
    if m in s.broker && s.broker[m].delivered < MAX_DELIVERIES {
      DeliveredIsHeld(s, move, m);
    }
  }

  lemma DeliveredIsHeld(s: System, move: Move, m: MessageId)
    requires m in s.broker && m in ApplyTransport(s, move).broker
    requires ApplyTransport(s, move).broker[m].delivered != s.broker[m].delivered
    ensures Held(ApplyTransport(s, move), m)
  {
    var t := ApplyTransport(s, move);
    assert move.Deliver? && move.message == m;
    assert t.workers[move.worker].message == m;
  }

  lemma ExhaustionOrigin(s: System, step: Step, m: MessageId)
    requires Fits(s) && !IsExhausted(s, m) && IsExhausted(Apply(s, step), m)
    ensures Exhausts(s, step, m)
  {
    match step
    case Tick(_) =>
    case Queue(_) =>
    case Transport(move) => TransportExhaustsNothing(s, move, m);
    case Work(w, act) => WorkExhausts(s, w, act, m);
  }

  lemma WorkStaysExhausted(s: System, t: System, w: WorkerId, m: MessageId)
    requires IsExhausted(s, m) && WorkEffect(s, t, w)
    ensures IsExhausted(t, m)
  {
    assert t.broker[m] == s.broker[m] by {
      if w in s.workers && s.workers[w].message == m {
        assert Held(s, m);
      }
    }
    forall x | x in t.workers ensures t.workers[x].message != m {
      assert x in s.workers && s.workers[x].message == t.workers[x].message;
      assert !Held(s, m);
    }
  }

  lemma TransportStaysExhausted(s: System, t: System, mayGiveUp: bool, m: MessageId)
    requires Fits(s) && IsExhausted(s, m) && TransportEffect(s, t, mayGiveUp)
    ensures IsExhausted(t, m)
  {
    forall x | x in t.workers ensures t.workers[x].message != m {
      if x in s.workers {
        assert t.workers[x] == s.workers[x];
        assert !Held(s, m);
      }
    }
  }

  lemma StepStaysExhausted(s: System, step: Step, m: MessageId)
    requires Fits(s) && IsExhausted(s, m)
    ensures IsExhausted(Apply(s, step), m)
  {
    match step
    case Tick(_) => assert Held(s, m) == Held(Apply(s, step), m);
    case Queue(_) => assert Held(s, m) == Held(Apply(s, step), m);
    case Transport(move) =>
      EveryTransportEffect(s, move);
      TransportStaysExhausted(s, ApplyTransport(s, move), move.GiveUp?, m);
    case Work(w, act) =>
      EveryWorkEffect(s, w, act);
      WorkStaysExhausted(s, ApplyWork(s, w, act), w, m);
  }

  lemma {:induction false} RunStaysExhausted(s: System, steps: seq<Step>, m: MessageId)
    requires Inv(s) && IsExhausted(s, m)
    ensures IsExhausted(Run(s, steps), m)
    decreases |steps|
  {
    if steps != [] {
      StepKeepsInv(s, steps[0]);
      StepStaysExhausted(s, steps[0], m);
      RunStaysExhausted(Apply(s, steps[0]), steps[1..], m);
    }
  }

  lemma {:induction false} ExhaustedFrom(s: System, steps: seq<Step>, m: MessageId)
    requires Inv(s) && !IsExhausted(s, m)
    ensures IsExhausted(Run(s, steps), m) <==> RunExhausts(s, steps, m)
    decreases |steps|
  {
    if steps != [] {
      var t := Apply(s, steps[0]);
      StepKeepsInv(s, steps[0]);
      if IsExhausted(t, m) {
        ExhaustionOrigin(s, steps[0], m);
        RunStaysExhausted(t, steps[1..], m);
      } else {
        if Exhausts(s, steps[0], m) {
          ExhaustsExhausts(s, steps[0], m);
        }
        ExhaustedFrom(t, steps[1..], m);
      }
    }
  }

  /** In every run: a message is out of deliveries, unsettled and in nobody's hands, in
      exactly the runs in which the last worker that held it quit after its eighth
      delivery. Nobody will ever see it again. */
  lemma ExhaustedIff(now: int, steps: seq<Step>, m: MessageId)
    ensures IsExhausted(Run(Init(now), steps), m) <==> RunExhausts(Init(now), steps, m)
  {
    InitInv(now);
    ExhaustedFrom(Init(now), steps, m);
  }

  /** The command waits in the outbox, or on a message that can still be delivered or that
      a worker holds. */
  ghost predicate Live(s: System, e: EventId) {
    && e in s.db.outbox
    && (s.db.outbox[e].state != Published ||
        exists m :: m in s.broker && Carries(s.broker, m, e) && (Deliverable(s, m) || Held(s, m)))
  }

  /** In every run: the newest command of an open job is dead in exactly the runs in which
      it was published and every message that carries it was exhausted in that way. */
  lemma OpenJobIsLostIff(now: int, steps: seq<Step>, j: JobId)
    ensures var s := Run(Init(now), steps);
      var e := Latest(s.db.audits, j);
      Open(s.db, j) ==>
        e in s.db.outbox &&
        (!Live(s, e) <==>
         (s.db.outbox[e].state == Published &&
          forall m | m in s.broker && Carries(s.broker, m, e) :: RunExhausts(Init(now), steps, m)))
  {
    var s := Run(Init(now), steps);
    InitInv(now);
    RunKeepsInv(Init(now), steps);
    if Open(s.db, j) {
      var e := Latest(s.db.audits, j);
      LatestIsCommanded(s.db, j);
      forall m | m in s.broker && Carries(s.broker, m, e)
        ensures RunExhausts(Init(now), steps, m) <==> !(Deliverable(s, m) || Held(s, m))
      {
        ExhaustedIff(now, steps, m);
        assert MessageFits(s, m);
        assert Vital(s, m);
      }
    }
  }

  // ---------------------------------------------------------------- leases

  /** In every reachable state a job has a lease token exactly while RUNNING, no two jobs
      share a token, and the attempts counter is the number of claims granted. */
  lemma LeasesAreExclusive(now: int, steps: seq<Step>, i: JobId, j: JobId)
    requires i in Run(Init(now), steps).db.jobs && j in Run(Init(now), steps).db.jobs
    ensures var db := Run(Init(now), steps).db;
      && (db.jobs[j].leaseToken.Some? <==> db.jobs[j].status == RUNNING)
      && (i != j && db.jobs[i].leaseToken.Some? ==> db.jobs[i].leaseToken != db.jobs[j].leaseToken)
      && db.jobs[j].attempts == |ClaimsOf(db.issued, j)|
  {
    InitInv(now);
    RunKeepsInv(Init(now), steps);
    assert LeaseFits(Run(Init(now), steps).db, i);
    assert LeaseFits(Run(Init(now), steps).db, j);
  }

  /** The token was handed out but is not, or no longer, the one on its job's row. */
  ghost predicate Superseded(db: Db, t: Token) {
    t in db.issued && !(db.issued[t] in db.jobs && db.jobs[db.issued[t]].leaseToken == Some(t))
  }

  /** What a step may do to the row and the token history of any job. */
  ghost predicate RowFrom(s: Db, t: Db, j: JobId)
    requires j in t.jobs
  {
    && (t.jobs[j].leaseToken.Some? ==>
          || (j in s.jobs && s.jobs[j].leaseToken == t.jobs[j].leaseToken)
          || t.jobs[j].leaseToken.value !in s.issued)
    && (j in s.jobs ==> s.jobs[j].attempts <= t.jobs[j].attempts)
    && (j in s.jobs && s.jobs[j].status == SUCCEEDED ==> t.jobs[j] == s.jobs[j])
  }

  ghost predicate RowsFrom(s: Db, t: Db) {
    && s.jobs.Keys <= t.jobs.Keys
    && (forall x | x in s.issued :: x in t.issued && t.issued[x] == s.issued[x])
    && (forall j | j in t.jobs :: RowFrom(s, t, j))
  }

  lemma QueueRows(db: Db, op: QueueOp, now: int)
    ensures RowsFrom(db, ApplyQueue(db, op, now))
  {
  }

  lemma WorkRows(s: System, t: System, w: WorkerId)
    requires WorkEffect(s, t, w)
    ensures RowsFrom(s.db, t.db)
  {
    forall j | j in t.db.jobs ensures RowFrom(s.db, t.db, j) {
      assert t.db.jobs[j] == s.db.jobs[j] || RowMove(s.db, s.db.jobs[j], t.db.jobs[j]);
    }
  }

  lemma StepRows(s: System, step: Step)
    ensures RowsFrom(s.db, Apply(s, step).db)
  {
    match step
    case Tick(_) =>
    case Queue(op) => QueueRows(s.db, op, s.now);
    case Transport(move) => EveryTransportEffect(s, move);
    case Work(w, act) =>
      EveryWorkEffect(s, w, act);
      WorkRows(s, ApplyWork(s, w, act), w);
  }

  lemma RowsKeepSuperseded(s: Db, t: Db, x: Token)
    requires RowsFrom(s, t) && Superseded(s, x)
    ensures Superseded(t, x)
  {
    var j := s.issued[x];
    if j in t.jobs {
      assert RowFrom(s, t, j);
    }
  }

  /** A superseded token stays superseded: it never becomes current again. */
  lemma {:induction false} SupersededForever(s: System, steps: seq<Step>, t: Token)
    requires Superseded(s.db, t)
    ensures Superseded(Run(s, steps).db, t)
    decreases |steps|
  {
    if steps != [] {
      StepRows(s, steps[0]);
      RowsKeepSuperseded(s.db, Apply(s, steps[0]).db, t);
      SupersededForever(Apply(s, steps[0]), steps[1..], t);
    }
  }

  /** From the moment a worker's token is superseded, in every later state of every run,
      nothing the worker does with that token changes any job row or writes a dead letter. */
  lemma LateWorkerIsHarmless(s: System, steps: seq<Step>, t: Token, w: WorkerId, act: Act)
    requires Inv(s) && Superseded(s.db, t)
    requires w in Run(s, steps).workers && Believed(Run(s, steps).workers[w]) == Some(t)
    ensures ApplyWork(Run(s, steps), w, act).db == Run(s, steps).db
  {
    SupersededForever(s, steps, t);
    RunKeepsInv(s, steps);
    LateActIsHarmless(Run(s, steps), t, w, act);
  }

  lemma LateActIsHarmless(s: System, t: Token, w: WorkerId, act: Act)
    requires Inv(s) && Superseded(s.db, t)
    requires w in s.workers && Believed(s.workers[w]) == Some(t)
    ensures ApplyWork(s, w, act).db == s.db
  {
    assert BeliefFits(s, w);
    assert !Holds(s.db, CommandOf(s, w).jobId, t);
    match act
    case Beat => assert ApplyBeat(s, w).db == s.db;
    case Finish => assert ApplyFinish(s, w).db == s.db;
    case Recover => assert ApplyRecover(s, w).db == s.db;
    case _ => OtherActsKeepDb(s, w, act);
  }

  /** SUCCEEDED is final: no late worker, redrive or redelivery changes the row again. */
  lemma {:induction false} SucceededForever(s: System, steps: seq<Step>, j: JobId)
    requires j in s.db.jobs && s.db.jobs[j].status == SUCCEEDED
    ensures j in Run(s, steps).db.jobs && Run(s, steps).db.jobs[j] == s.db.jobs[j]
    decreases |steps|
  {
    if steps != [] {
      StepRows(s, steps[0]);
      assert RowFrom(s.db, Apply(s, steps[0]).db, j);
      SucceededForever(Apply(s, steps[0]), steps[1..], j);
    }
  }

  lemma {:induction false} AttemptsNeverDecrease(s: System, steps: seq<Step>, j: JobId)
    requires j in s.db.jobs
    ensures j in Run(s, steps).db.jobs && s.db.jobs[j].attempts <= Run(s, steps).db.jobs[j].attempts
    decreases |steps|
  {
    if steps != [] {
      StepRows(s, steps[0]);
      assert RowFrom(s.db, Apply(s, steps[0]).db, j);
      AttemptsNeverDecrease(Apply(s, steps[0]), steps[1..], j);
    }
  }

  // ---------------------------------------------------------------- dead letters, redrives, reconciliation

  /** In every reachable state a job of a registered kind has exactly one unresolved dead
      letter while FAILED and none otherwise; redrives and audit rows correspond one to
      one; and reconciliation has nothing to repair. */
  lemma LettersAndAudits(now: int, steps: seq<Step>, j: JobId)
    ensures var db := Run(Init(now), steps).db;
      && (j in db.jobs && Registered(db.jobs[j].kind) ==>
            |Unresolved(db.deadLetters, j)| == if db.jobs[j].status == FAILED then 1 else 0)
      && (forall i: nat :: Redrive(i) in db.outbox <==> i < |db.audits|)
      && (forall i: nat | i < |db.audits| ::
            db.audits[i].eventId == Redrive(i) && db.outbox[Redrive(i)].jobId == db.audits[i].jobId)
      && Reconcile(db) == db
  {
    var db := Run(Init(now), steps).db;
    InitInv(now);
    RunKeepsInv(Init(now), steps);
    assert LettersFit(db, j);
    ReconcileIsNoOp(db);
    forall i: nat
      ensures Redrive(i) in db.outbox <==> i < |db.audits|
      ensures i < |db.audits| ==> db.audits[i].eventId == Redrive(i) && db.outbox[Redrive(i)].jobId == db.audits[i].jobId
    {
      if i < |db.audits| {
        assert AuditFits(db, i);
        assert RowFits(db, Redrive(i));
      }
      if Redrive(i) in db.outbox {
        assert RowFits(db, Redrive(i));
      }
    }
  }

  // ---------------------------------------------------------------- settlement

  ghost function FinishedJobs(db: Db): set<JobId> {
    set j | j in db.jobs && Terminal(db.jobs[j].status)
  }

  /** The jobs that are finished in some state of a run. */
  ghost function EverFinished(s: System, steps: seq<Step>): set<JobId>
    decreases |steps|
  {
    FinishedJobs(s.db) + if steps == [] then {} else EverFinished(Apply(s, steps[0]), steps[1..])
  }

  ghost predicate AckFollows(s: System, past: set<JobId>, m: MessageId)
    requires m in s.broker
  {
    s.broker[m].settlement == Acked && s.broker[m].command.Some? ==> s.broker[m].command.value.jobId in past
  }

  ghost predicate AckDueFollows(s: System, past: set<JobId>, w: WorkerId)
    requires w in s.workers
  {
    AckPending(s.workers[w]) && HasCommand(s, w) ==> CommandOf(s, w).jobId in past
  }

  ghost predicate AcksFollow(s: System, past: set<JobId>) {
    && (forall m | m in s.broker :: AckFollows(s, past, m))
    && (forall w | w in s.workers :: AckDueFollows(s, past, w))
  }

  lemma WorkKeepsAcks(s: System, t: System, w: WorkerId, past: set<JobId>)
    requires Fits(s) && AcksFollow(s, past) && WorkEffect(s, t, w)
    ensures AcksFollow(t, past + FinishedJobs(t.db))
  {
    forall m | m in t.broker ensures AckFollows(t, past + FinishedJobs(t.db), m) {
      assert AckFollows(s, past, m);
      if w in s.workers {
        assert AckDueFollows(s, past, w);
      }
    }
    forall x | x in t.workers ensures AckDueFollows(t, past + FinishedJobs(t.db), x) {
      assert AckDueFollows(s, past, x) && WorkerFits(s, x);
    }
  }

  lemma TransportKeepsAcks(s: System, t: System, mayGiveUp: bool, past: set<JobId>)
    requires Fits(s) && AcksFollow(s, past) && TransportEffect(s, t, mayGiveUp)
    ensures AcksFollow(t, past)
  {
    forall m | m in t.broker ensures AckFollows(t, past, m) {
      if m in s.broker {
        assert AckFollows(s, past, m);
      }
    }
    forall x | x in t.workers ensures AckDueFollows(t, past, x) {
      if x in s.workers {
        assert AckDueFollows(s, past, x) && WorkerFits(s, x);
      }
    }
  }

  lemma SameMessagesKeepAcks(s: System, t: System, past: set<JobId>, more: set<JobId>)
    requires AcksFollow(s, past) && past <= more && t.broker == s.broker && t.workers == s.workers
    ensures AcksFollow(t, more)
  {
    forall m | m in t.broker ensures AckFollows(t, more, m) {
      assert AckFollows(s, past, m);
    }
    forall w | w in t.workers ensures AckDueFollows(t, more, w) {
      assert AckDueFollows(s, past, w);
    }
  }

  lemma StepKeepsAcks(s: System, step: Step, past: set<JobId>)
    requires Fits(s) && AcksFollow(s, past)
    ensures AcksFollow(Apply(s, step), past + FinishedJobs(Apply(s, step).db))
  {
    var t := Apply(s, step);
    match step
    case Tick(_) => SameMessagesKeepAcks(s, t, past, past + FinishedJobs(t.db));
    case Queue(op) => SameMessagesKeepAcks(s, t, past, past + FinishedJobs(t.db));
    case Transport(move) =>
      EveryTransportEffect(s, move);
      TransportKeepsAcks(s, t, move.GiveUp?, past);
      SameMessagesKeepAcks(t, t, past, past + FinishedJobs(t.db));
    case Work(w, act) =>
      EveryWorkEffect(s, w, act);
      WorkKeepsAcks(s, t, w, past);
  }

  lemma {:induction false} RunKeepsAcks(s: System, steps: seq<Step>, past: set<JobId>)
    requires Inv(s) && AcksFollow(s, past) && FinishedJobs(s.db) <= past
    ensures AcksFollow(Run(s, steps), past + EverFinished(s, steps))
    decreases |steps|
  {
    if steps == [] {
      assert past + EverFinished(s, steps) == past;
    } else {
      var t := Apply(s, steps[0]);
      StepKeepsInv(s, steps[0]);
      StepKeepsAcks(s, steps[0], past);
      RunKeepsAcks(t, steps[1..], past + FinishedJobs(t.db));
      assert past + FinishedJobs(t.db) + EverFinished(t, steps[1..]) == past + EverFinished(s, steps) by {
        assert FinishedJobs(t.db) <= EverFinished(t, steps[1..]);
      }
    }
  }

  /** In every run a command is acknowledged only after its job was finished, and a message
      is terminated only after a dead letter for it was committed. */
  lemma SettledWithCause(now: int, steps: seq<Step>, m: MessageId)
    requires m in Run(Init(now), steps).broker
    ensures var message := Run(Init(now), steps).broker[m];
      && (message.settlement == Acked && message.command.Some? ==>
            message.command.value.jobId in EverFinished(Init(now), steps))
      && (message.settlement == Termed ==> HasLetter(Run(Init(now), steps).db, m))
  {
    InitInv(now);
    RunKeepsInv(Init(now), steps);
    RunKeepsAcks(Init(now), steps, {});
    assert {} + EverFinished(Init(now), steps) == EverFinished(Init(now), steps);
    assert AckFollows(Run(Init(now), steps), EverFinished(Init(now), steps), m);
  }

  // ---------------------------------------------------------------- where the protocol gives up

  /** A running job none of whose commands can reach a worker any more. */
  ghost predicate Stranded(s: System, j: JobId) {
    && j in s.db.jobs
    && s.db.jobs[j].status == RUNNING
    && Registered(s.db.jobs[j].kind)
    && (forall e | e in s.db.outbox && s.db.outbox[e].jobId == j :: s.db.outbox[e].state == Published)
    && (forall m | m in s.broker && Concerns(s.broker[m], j) ::
          s.broker[m].settlement != Unsettled || s.broker[m].delivered >= MAX_DELIVERIES)
    && NobodyWorksOn(s, j)
  }

  ghost predicate Concerns(message: Message, j: JobId) {
    message.command.Some? && message.command.value.jobId == j
  }

  ghost predicate NobodyWorksOn(s: System, j: JobId) {
    forall w | w in s.workers && s.workers[w].message in s.broker :: !Concerns(s.broker[s.workers[w].message], j)
  }

  /** The relay dead-letters a command of this very job. */
  ghost predicate GivesUp(s: System, step: Step, j: JobId) {
    && step.Transport? && step.move.GiveUp?
    && step.move.eventId in s.db.outbox && s.db.outbox[step.move.eventId].jobId == j
  }

  ghost predicate RunGivesUp(s: System, steps: seq<Step>, j: JobId)
    decreases |steps|
  {
    steps != [] && (GivesUp(s, steps[0], j) || RunGivesUp(Apply(s, steps[0]), steps[1..], j))
  }

  lemma WorkKeepsStranded(s: System, t: System, w: WorkerId, j: JobId)
    requires Stranded(s, j) && WorkEffect(s, t, w)
    ensures Stranded(t, j) && t.db.jobs[j] == s.db.jobs[j]
  {
    forall m | m in t.broker && Concerns(t.broker[m], j)
      ensures t.broker[m].settlement != Unsettled || t.broker[m].delivered >= MAX_DELIVERIES
    {
      assert Concerns(s.broker[m], j);
    }
    forall x | x in t.workers && t.workers[x].message in t.broker
      ensures !Concerns(t.broker[t.workers[x].message], j)
    {
      assert x in s.workers && s.workers[x].message == t.workers[x].message;
    }
  }

  lemma TransportKeepsStranded(s: System, t: System, j: JobId)
    requires Fits(s) && Stranded(s, j) && TransportEffect(s, t, false)
    ensures Stranded(t, j) && t.db.jobs[j] == s.db.jobs[j]
  {
    forall e | e in t.db.outbox && t.db.outbox[e].jobId == j ensures t.db.outbox[e].state == Published {
      assert OutboxRowTransport(s, t, false, e);
    }
    forall m | m in t.broker && Concerns(t.broker[m], j)
      ensures t.broker[m].settlement != Unsettled || t.broker[m].delivered >= MAX_DELIVERIES
    {
      if m in s.broker {
        assert Concerns(s.broker[m], j);
      }
    }
    forall x | x in t.workers && t.workers[x].message in t.broker
      ensures !Concerns(t.broker[t.workers[x].message], j)
    {
      if x in s.workers {
        assert WorkerFits(s, x);
      } else {
        assert t.workers[x].message in s.broker;
      }
    }
  }

  /** A new command is for a job that had none under its id, or for one that is not running. */
  lemma NewCommandOrigin(db: Db, op: QueueOp, now: int, e: EventId)
    requires TablesFit(db) && e in ApplyQueue(db, op, now).outbox && e !in db.outbox
    ensures var j := ApplyQueue(db, op, now).outbox[e].jobId;
      ForJob(j) !in db.outbox || (j in db.jobs && db.jobs[j].status != RUNNING)
  {
    if op.ReconcileQueued? {
      ReconcileIsNoOp(db);
    }
  }

  lemma QueueKeepsStranded(s: System, op: QueueOp, j: JobId)
    requires TablesFit(s.db) && Stranded(s, j)
    ensures Stranded(s.(db := ApplyQueue(s.db, op, s.now)), j)
    ensures ApplyQueue(s.db, op, s.now).jobs[j] == s.db.jobs[j]
  {
    var after := ApplyQueue(s.db, op, s.now);
    assert after.jobs[j] == s.db.jobs[j];
    QueueKeepsTables(s.db, op, s.now);
    forall e | e in after.outbox && after.outbox[e].jobId == j ensures after.outbox[e].state == Published {
      if e !in s.db.outbox {
        NewCommandOrigin(s.db, op, s.now, e);
      }
    }
  }

  /** A command of another job given up. */
  lemma ForeignGiveUpKeepsStranded(s: System, e: EventId, j: JobId)
    requires Stranded(s, j) && (e in s.db.outbox ==> s.db.outbox[e].jobId != j)
    ensures var t := ApplyTransport(s, GiveUp(e)); Stranded(t, j) && t.db.jobs == s.db.jobs
  {
  }

  lemma StepKeepsStranded(s: System, step: Step, j: JobId)
    requires Fits(s) && Stranded(s, j) && !GivesUp(s, step, j)
    ensures Stranded(Apply(s, step), j) && Apply(s, step).db.jobs[j] == s.db.jobs[j]
  {
    match step
    case Tick(_) =>
    case Queue(op) => QueueKeepsStranded(s, op, j);
    case Transport(move) =>
      if move.GiveUp? {
        ForeignGiveUpKeepsStranded(s, move.eventId, j);
      } else {
        EveryTransportEffect(s, move);
        TransportKeepsStranded(s, ApplyTransport(s, move), j);
      }
    case Work(w, act) =>
      EveryWorkEffect(s, w, act);
      WorkKeepsStranded(s, ApplyWork(s, w, act), w, j);
  }

  lemma GiveUpFrees(s: System, step: Step, j: JobId)
    requires GivesUp(s, step, j)
    ensures !Stranded(Apply(s, step), j)
  {
    var e := step.move.eventId;
    assert Apply(s, step).db.outbox[e].state == DeadLettered;
  }

  /** The job is stranded in every state of the run. */
  ghost predicate StrandedThroughout(s: System, steps: seq<Step>, j: JobId)
    decreases |steps|
  {
    Stranded(s, j) && (steps != [] ==> StrandedThroughout(Apply(s, steps[0]), steps[1..], j))
  }

  /** A stranded job stays exactly as it is through a continuation if and only if the relay
      dead-letters none of its own commands there: redrive refuses it, no delivery is
      left, and what happens to other jobs does not matter. */
  lemma {:induction false} StrandedForever(s: System, steps: seq<Step>, j: JobId)
    requires Inv(s) && Stranded(s, j)
    ensures StrandedThroughout(s, steps, j) <==> !RunGivesUp(s, steps, j)
    ensures !RunGivesUp(s, steps, j) ==> Stranded(Run(s, steps), j) && Run(s, steps).db.jobs[j] == s.db.jobs[j]
    decreases |steps|
  {
    if steps != [] {
      if GivesUp(s, steps[0], j) {
        GiveUpFrees(s, steps[0], j);
      } else {
        StepKeepsInv(s, steps[0]);
        StepKeepsStranded(s, steps[0], j);
        StrandedForever(Apply(s, steps[0]), steps[1..], j);
      }
    }
  }

  // A run that strands a job: the same message is delivered eight times, and each time the
  // worker dies after the claim.

  ghost function LostDelivery(token: Token): seq<Step> {
    [Transport(Deliver(0, 0)), Work(0, ClaimJob(token)), Work(0, Crash)]
  }

  ghost function LostDeliveries(n: nat): seq<Step> {
    if n == 0 then [] else LostDeliveries(n - 1) + LostDelivery(n)
  }

  ghost function Setup(): seq<Step> {
    [Queue(EnqueueJob(0, PDF_RENDER, None)), Transport(Publish(ForJob(0), 0)), Transport(MarkPublished(ForJob(0)))]
  }

  ghost function StrandingRun(): seq<Step> {
    Setup() + LostDeliveries(MAX_DELIVERIES)
  }

  lemma {:induction false} RunAppend(s: System, a: seq<Step>, b: seq<Step>)
    ensures Run(s, a + b) == Run(Run(s, a), b)
    decreases |a|
  {
    if a == [] {
      assert a + b == b;
    } else {
      assert (a + b)[1..] == a[1..] + b;
      RunAppend(Apply(s, a[0]), a[1..], b);
    }
  }

  lemma RunOfThree(s: System, x: Step, y: Step, z: Step)
    ensures Run(s, [x, y, z]) == Apply(Apply(Apply(s, x), y), z)
  {
    assert [x, y, z][1..] == [y, z] && [y, z][1..] == [z] && [z][1..] == [];
    assert Run(Apply(Apply(s, x), y), [z]) == Apply(Apply(Apply(s, x), y), z);
  }

  /** One published, unsettled message for job 0, delivered n times, and an idle worker. */
  ghost predicate LostSoFar(s: System, n: nat) {
    && s.workers == map[]
    && s.broker == map[0 := Message(Some(Command(ForJob(0), 0, PDF_RENDER)), n, Unsettled)]
    && s.db.outbox == map[ForJob(0) := OutboxRow(0, PDF_RENDER, Published)]
    && s.db.jobs.Keys == {0}
    && s.db.jobs[0].kind == PDF_RENDER
    && s.db.jobs[0].availableAt <= s.now
    && (if n == 0 then s.db.jobs[0].status == QUEUED else s.db.jobs[0].status == RUNNING)
    && (forall t | t in s.db.issued :: t <= n)
  }

  lemma LoseOne(s: System, n: nat)
    requires LostSoFar(s, n) && n < MAX_DELIVERIES
    ensures LostSoFar(Run(s, LostDelivery(n + 1)), n + 1)
  {
    var a := Apply(s, Transport(Deliver(0, 0)));
    var b := Apply(a, Work(0, ClaimJob(n + 1)));
    var c := Apply(b, Work(0, Crash));
    RunOfThree(s, Transport(Deliver(0, 0)), Work(0, ClaimJob(n + 1)), Work(0, Crash));
    assert a.broker == map[0 := Message(Some(Command(ForJob(0), 0, PDF_RENDER)), n + 1, Unsettled)];
    assert a.workers == map[0 := Received(0, n + 1)];
    assert HasCommand(a, 0) && CommandOf(a, 0) == Command(ForJob(0), 0, PDF_RENDER);
    assert c.workers == map[];
  }

  lemma {:induction false} LoseMany(s: System, n: nat)
    requires LostSoFar(s, 0) && n <= MAX_DELIVERIES
    ensures LostSoFar(Run(s, LostDeliveries(n)), n)
    decreases n
  {
    if n > 0 {
      LoseMany(s, n - 1);
      RunAppend(s, LostDeliveries(n - 1), LostDelivery(n));
      LoseOne(Run(s, LostDeliveries(n - 1)), n - 1);
    }
  }

  lemma SetupRun(now: int)
    ensures LostSoFar(Run(Init(now), Setup()), 0)
  {
    var a := Apply(Init(now), Setup()[0]);
    var b := Apply(a, Setup()[1]);
    RunOfThree(Init(now), Setup()[0], Setup()[1], Setup()[2]);
    assert Carries(b.broker, 0, ForJob(0));
  }

  /** Stranded jobs are reachable: the deliveries of a RUNNING job can run out. */
  lemma StrandedIsReachable(now: int)
    ensures Stranded(Run(Init(now), StrandingRun()), 0)
  {
    SetupRun(now);
    LoseMany(Run(Init(now), Setup()), MAX_DELIVERIES);
    RunAppend(Init(now), Setup(), LostDeliveries(MAX_DELIVERIES));
  }

  // The same without any crash: each time the answer to the claim is lost, and the worker
  // gives the message back, the eighth time too.

  ghost function GivenBack(token: Token): seq<Step> {
    [Transport(Deliver(0, 0)), Work(0, ClaimUnseen(token))] + [Work(0, Recover), Work(0, Nak)]
  }

  ghost function AllGivenBack(n: nat): seq<Step> {
    if n == 0 then [] else AllGivenBack(n - 1) + GivenBack(n)
  }

  lemma RunOfTwo(s: System, x: Step, y: Step)
    ensures Run(s, [x, y]) == Apply(Apply(s, x), y)
  {
    assert [x, y][1..] == [y] && [y][1..] == [];
    assert Run(Apply(s, x), [y]) == Apply(Apply(s, x), y);
  }

  lemma GiveBackOne(s: System, n: nat)
    requires LostSoFar(s, n) && n < MAX_DELIVERIES
    ensures LostSoFar(Run(s, GivenBack(n + 1)), n + 1)
  {
    var a := Apply(s, Transport(Deliver(0, 0)));
    var b := Apply(a, Work(0, ClaimUnseen(n + 1)));
    var c := Apply(b, Work(0, Recover));
    RunAppend(s, [Transport(Deliver(0, 0)), Work(0, ClaimUnseen(n + 1))], [Work(0, Recover), Work(0, Nak)]);
    RunOfTwo(s, Transport(Deliver(0, 0)), Work(0, ClaimUnseen(n + 1)));
    RunOfTwo(b, Work(0, Recover), Work(0, Nak));
    assert a.broker == map[0 := Message(Some(Command(ForJob(0), 0, PDF_RENDER)), n + 1, Unsettled)];
    assert a.workers == map[0 := Received(0, n + 1)];
    assert HasCommand(a, 0) && CommandOf(a, 0) == Command(ForJob(0), 0, PDF_RENDER);
    assert b.workers == map[0 := Failing(0, n + 1, None)] && HasCommand(b, 0);
    assert c.workers == map[0 := NakDue(0, n + 1)];
    assert Apply(c, Work(0, Nak)).workers == map[];
  }

  lemma {:induction false} GiveBackMany(s: System, n: nat)
    requires LostSoFar(s, 0) && n <= MAX_DELIVERIES
    ensures LostSoFar(Run(s, AllGivenBack(n)), n)
    decreases n
  {
    if n > 0 {
      GiveBackMany(s, n - 1);
      RunAppend(s, AllGivenBack(n - 1), GivenBack(n));
      GiveBackOne(Run(s, AllGivenBack(n - 1)), n - 1);
    }
  }

  lemma {:induction false} NoneCrashes(n: nat)
    ensures forall step | step in AllGivenBack(n) :: !(step.Work? && step.act.Crash?)
    decreases n
  {
    if n > 0 {
      NoneCrashes(n - 1);
    }
  }

  /** Stranding takes no crash. */
  lemma StrandedWithoutCrash(now: int)
    ensures var steps := Setup() + AllGivenBack(MAX_DELIVERIES);
      && Stranded(Run(Init(now), steps), 0)
      && (forall step | step in steps :: !(step.Work? && step.act.Crash?))
  {
    SetupRun(now);
    GiveBackMany(Run(Init(now), Setup()), MAX_DELIVERIES);
    RunAppend(Init(now), Setup(), AllGivenBack(MAX_DELIVERIES));
    NoneCrashes(MAX_DELIVERIES);
  }
}
