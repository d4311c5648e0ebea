/** What every step of the work protocol keeps, and what follows for whole runs. */
module WorkSafety {
  import opened Wrappers
  import opened WorkTables
  import opened WorkProtocol

  // ---------------------------------------------------------------- references between tables

  ghost predicate RowFits(db: Db, e: EventId)
    requires e in db.outbox
  {
    var row := db.outbox[e];
    && row.jobId in db.jobs
    && (match e
        case ForJob(j) => j == row.jobId
        case Redrive(i) => i < |db.audits| && db.audits[i].jobId == row.jobId)
    && (Registered(db.jobs[row.jobId].kind) ==> row.kind == db.jobs[row.jobId].kind)
  }

  /** Every redrive has exactly its own audit row and its own command. */
  ghost predicate AuditFits(db: Db, i: nat)
    requires i < |db.audits|
  {
    && db.audits[i].eventId == Redrive(i)
    && db.audits[i].jobId in db.jobs
    && Redrive(i) in db.outbox
  }

  ghost predicate TablesFit(db: Db) {
    && (forall e | e in db.outbox :: RowFits(db, e))
    && (forall i: nat | i < |db.audits| :: AuditFits(db, i))
    && (forall key | key in db.keys :: db.keys[key] in db.jobs)
    && (forall j | j in db.jobs && Registered(db.jobs[j].kind) :: ForJob(j) in db.outbox)
  }

  ghost predicate MessageFits(s: System, m: MessageId)
    requires m in s.broker
  {
    var c := s.broker[m].command;
    c.Some? ==>
      && c.value.eventId in s.db.outbox
      && c.value.jobId == s.db.outbox[c.value.eventId].jobId
      && c.value.kind == s.db.outbox[c.value.eventId].kind
  }

  ghost predicate WorkerFits(s: System, w: WorkerId)
    requires w in s.workers
  {
    var p := s.workers[w];
    && p.message in s.broker
    && p.delivery <= s.broker[p.message].delivered
    && (p.Received? || p.TermDue? || s.broker[p.message].command.Some?)
  }

  ghost predicate Fits(s: System) {
    && TablesFit(s.db)
    && (forall m | m in s.broker :: MessageFits(s, m) && s.broker[m].delivered <= MAX_DELIVERIES)
    && (forall w | w in s.workers :: WorkerFits(s, w))
  }

  // ---------------------------------------------------------------- leases

  /** The token a worker believes it holds. */
  ghost function Believed(p: Phase): Option<Token> {
    match p
    case Working(_, _, token) => Some(token)
    case Failing(_, _, lease) => lease
    case AckDue(_, _, lease) => lease
    case _ => None
  }

  ghost predicate LeaseFits(db: Db, j: JobId)
    requires j in db.jobs
  {
    var job := db.jobs[j];
    && (job.leaseToken.Some? <==> job.status == RUNNING)
    && (job.leaseExpiresAt.Some? <==> job.status == RUNNING)
    && (job.leaseToken.Some? ==> job.leaseToken.value in db.issued && db.issued[job.leaseToken.value] == j)
    && job.attempts == |ClaimsOf(db.issued, j)|
  }

  ghost predicate BeliefFits(s: System, w: WorkerId)
    requires w in s.workers
  {
    var t := Believed(s.workers[w]);
    t.Some? ==>
      && t.value in s.db.issued
      && HasCommand(s, w)
      && s.db.issued[t.value] == CommandOf(s, w).jobId
  }

  ghost predicate Leases(s: System) {
    && (forall j | j in s.db.jobs :: LeaseFits(s.db, j))
    && (forall t | t in s.db.issued :: s.db.issued[t] in s.db.jobs)
    && (forall w | w in s.workers :: BeliefFits(s, w))
  }

  // ---------------------------------------------------------------- dead letters

  ghost predicate LettersFit(db: Db, j: JobId) {
    && (j !in db.jobs ==> Unresolved(db.deadLetters, j) == {})
    && (j in db.jobs && Registered(db.jobs[j].kind) ==>
          |Unresolved(db.deadLetters, j)| == if db.jobs[j].status == FAILED then 1 else 0)
  }

  ghost predicate Letters(db: Db) {
    forall j :: LettersFit(db, j)
  }

  /** Each message about to be terminated, or terminated, has its dead letter. */
  ghost predicate HasLetter(db: Db, m: MessageId) {
    exists i :: 0 <= i < |db.deadLetters| && db.deadLetters[i].source == m
  }

  ghost predicate TermsRecorded(s: System) {
    && (forall m | m in s.broker && s.broker[m].settlement == Termed :: HasLetter(s.db, m))
    && (forall w | w in s.workers && s.workers[w].TermDue? :: HasLetter(s.db, s.workers[w].message))
  }

  // ---------------------------------------------------------------- settlement of the newest command

  ghost predicate Open(db: Db, j: JobId) {
    j in db.jobs && Registered(db.jobs[j].kind) && !Terminal(db.jobs[j].status)
  }

  /** The message carries the newest command of an open job. */
  ghost predicate Vital(s: System, m: MessageId) {
    && m in s.broker
    && s.broker[m].command.Some?
    && Open(s.db, s.broker[m].command.value.jobId)
    && s.broker[m].command.value.eventId == Latest(s.db.audits, s.broker[m].command.value.jobId)
  }

  ghost predicate VitalIsSafe(s: System) {
    && (forall m | Vital(s, m) :: s.broker[m].settlement == Unsettled)
    && (forall w | w in s.workers && Vital(s, s.workers[w].message) ::
          !s.workers[w].AckDue? && !s.workers[w].LastAckDue? && !s.workers[w].TermDue?)
  }

  ghost predicate PublishedIsCarried(s: System) {
    forall e | e in s.db.outbox && s.db.outbox[e].state == Published ::
      exists m :: m in s.broker && Carries(s.broker, m, e)
  }

  ghost predicate Inv(s: System) {
    && Fits(s)
    && Leases(s)
    && Letters(s.db)
    && TermsRecorded(s)
    && VitalIsSafe(s)
    && PublishedIsCarried(s)
  }

  // ---------------------------------------------------------------- what each kind of step does

  ghost predicate AckPending(p: Phase) {
    p.AckDue? || p.LastAckDue?
  }

  /** A row rewritten by a worker: it was not finished, keeps its kind, loses no attempt,
      and carries its old token, a token never issued before, or none. */
  ghost predicate RowMove(db: Db, before: Job, after: Job) {
    && !Terminal(before.status)
    && after.kind == before.kind
    && before.attempts <= after.attempts
    && (after.leaseToken.Some? ==> after.leaseToken == before.leaseToken || after.leaseToken.value !in db.issued)
  }

  ghost predicate JobsMove(s: System, t: System, w: WorkerId) {
    && t.db.jobs.Keys == s.db.jobs.Keys
    && forall j | j in s.db.jobs ::
         t.db.jobs[j] == s.db.jobs[j] ||
         (HasCommand(s, w) && CommandOf(s, w).jobId == j && RowMove(s.db, s.db.jobs[j], t.db.jobs[j]))
  }

  ghost predicate MessagesMove(s: System, t: System, w: WorkerId) {
    && t.broker.Keys == s.broker.Keys
    && forall m | m in s.broker ::
         t.broker[m] == s.broker[m] ||
         (&& w in s.workers && s.workers[w].message == m
          && t.broker[m] == s.broker[m].(settlement := t.broker[m].settlement)
          && s.broker[m].settlement == Unsettled
          && ((t.broker[m].settlement == Acked && AckPending(s.workers[w])) ||
              (t.broker[m].settlement == Termed && s.workers[w].TermDue?)))
  }

  /** The phase a worker enters has its reason. */
  ghost predicate PhaseMove(s: System, t: System, w: WorkerId)
    requires w in t.workers && w in s.workers
  {
    var p, q := s.workers[w], t.workers[w];
    && q.message == p.message
    && q.delivery == p.delivery
    && (q == p || q.TermDue? || HasCommand(s, w))
    && (AckPending(q) && !AckPending(p) ==>
          CommandOf(s, w).jobId in t.db.jobs && Terminal(t.db.jobs[CommandOf(s, w).jobId].status))
    && (q.TermDue? && !p.TermDue? ==>
          && HasLetter(t.db, p.message)
          && (HasCommand(s, w) ==>
                CommandOf(s, w).jobId !in s.db.jobs || s.db.jobs[CommandOf(s, w).jobId].kind != CommandOf(s, w).kind))
    && (Believed(q).Some? ==>
          || Believed(q) == Believed(p)
          || (Believed(q).value in t.db.issued && t.db.issued[Believed(q).value] == CommandOf(s, w).jobId))
  }

  ghost predicate WorkersMove(s: System, t: System, w: WorkerId) {
    && (forall x | x != w :: x in t.workers <==> x in s.workers)
    && (forall x | x != w && x in t.workers :: t.workers[x] == s.workers[x])
    && (w in t.workers ==> w in s.workers && PhaseMove(s, t, w))
  }

  /** Everything an act of worker w may change. */
  ghost predicate WorkEffect(s: System, t: System, w: WorkerId) {
    && t.db.outbox == s.db.outbox && t.db.audits == s.db.audits && t.db.keys == s.db.keys
    && s.db.deadLetters <= t.db.deadLetters
    && (forall x | x in s.db.issued :: x in t.db.issued && t.db.issued[x] == s.db.issued[x])
    && JobsMove(s, t, w)
    && MessagesMove(s, t, w)
    && WorkersMove(s, t, w)
  }

  lemma RejectEffect(s: System, w: WorkerId)
    ensures WorkEffect(s, ApplyReject(s, w), w)
  {
    var t := ApplyReject(s, w);
    if t != s {
      assert t.db.deadLetters[|s.db.deadLetters|].source == s.workers[w].message;
    }
  }

  lemma ClaimEffect(s: System, w: WorkerId, token: Token, seen: bool)
    ensures WorkEffect(s, ApplyClaim(s, w, token, seen), w)
  {
  }

  lemma LookEffect(s: System, w: WorkerId)
    ensures WorkEffect(s, ApplyLook(s, w), w)
  {
    var t := ApplyLook(s, w);
    if t.db != s.db {
      assert t.db.deadLetters[|s.db.deadLetters|].source == s.workers[w].message;
    }
  }

  lemma BeatEffect(s: System, w: WorkerId)
    ensures WorkEffect(s, ApplyBeat(s, w), w)
  {
  }

  lemma FinishEffect(s: System, w: WorkerId)
    ensures WorkEffect(s, ApplyFinish(s, w), w)
  {
  }

  lemma RaiseEffect(s: System, w: WorkerId)
    ensures WorkEffect(s, ApplyRaise(s, w), w)
  {
  }

  lemma FailEffect(s: System, w: WorkerId, token: Token)
    requires HasCommand(s, w)
    ensures WorkEffect(s, ApplyFail(s, w, token), w)
  {
  }

  lemma RetryEffect(s: System, w: WorkerId, token: Token)
    requires HasCommand(s, w)
    ensures WorkEffect(s, ApplyRetry(s, w, token), w)
  {
  }

  lemma RecoverEffect(s: System, w: WorkerId)
    ensures WorkEffect(s, ApplyRecover(s, w), w)
  {
    if HasCommand(s, w) && s.workers[w].Failing? && s.workers[w].lease.Some? {
      FailEffect(s, w, s.workers[w].lease.value);
      RetryEffect(s, w, s.workers[w].lease.value);
    }
  }

  lemma AnswerEffect(s: System, w: WorkerId, act: Act)
    ensures WorkEffect(s, ApplyAnswer(s, w, act), w)
  {
  }

  lemma EveryWorkEffect(s: System, w: WorkerId, act: Act)
    ensures WorkEffect(s, ApplyWork(s, w, act), w)
  {
    match act
    case Reject => RejectEffect(s, w);
    case ClaimJob(token) => ClaimEffect(s, w, token, true);
    case ClaimUnseen(token) => ClaimEffect(s, w, token, false);
    case Look => LookEffect(s, w);
    case Beat => BeatEffect(s, w);
    case Finish => FinishEffect(s, w);
    case Raise => RaiseEffect(s, w);
    case Recover => RecoverEffect(s, w);
    case _ => AnswerEffect(s, w, act);
  }

  /** Same jobs and kinds, same commands and audits, states aside. */
  ghost predicate SameShape(a: Db, b: Db) {
    && a.jobs.Keys == b.jobs.Keys
    && (forall j | j in a.jobs :: a.jobs[j].kind == b.jobs[j].kind)
    && a.outbox.Keys == b.outbox.Keys
    && (forall e | e in a.outbox :: a.outbox[e].jobId == b.outbox[e].jobId && a.outbox[e].kind == b.outbox[e].kind)
    && a.audits == b.audits
    && a.keys == b.keys
  }

  /** A message that a transport move adds carries a pending command, or none. */
  ghost predicate FreshMessage(db: Db, message: Message) {
    && message.delivered == 0
    && message.settlement == Unsettled
    && (message.command.Some? ==>
          var c := message.command.value;
          && c.eventId in db.outbox
          && db.outbox[c.eventId].state == Pending
          && c.jobId == db.outbox[c.eventId].jobId
          && c.kind == db.outbox[c.eventId].kind)
  }

  /** A row becomes published only if it was, or a message carries it. */
  ghost predicate OutboxTransport(s: System, t: System, mayGiveUp: bool)
    requires SameShape(s.db, t.db)
  {
    forall e | e in s.db.outbox :: OutboxRowTransport(s, t, mayGiveUp, e)
  }

  ghost predicate OutboxRowTransport(s: System, t: System, mayGiveUp: bool, e: EventId)
    requires e in s.db.outbox && e in t.db.outbox
  {
    && (t.db.outbox[e].state == Published ==>
          s.db.outbox[e].state == Published || exists m :: m in s.broker && Carries(s.broker, m, e))
    && (!mayGiveUp && s.db.outbox[e].state == Published ==> t.db.outbox[e].state == Published)
  }

  ghost predicate MessagesTransport(s: System, t: System) {
    && s.broker.Keys <= t.broker.Keys
    && (forall m | m in s.broker ::
          && t.broker[m] == s.broker[m].(delivered := t.broker[m].delivered)
          && s.broker[m].delivered <= t.broker[m].delivered
          && (s.broker[m].delivered <= MAX_DELIVERIES ==> t.broker[m].delivered <= MAX_DELIVERIES))
    && (forall m | m in t.broker && m !in s.broker :: FreshMessage(s.db, t.broker[m]))
  }

  /** A new worker has just received a message that could still be delivered. */
  ghost predicate WorkersTransport(s: System, t: System) {
    && (forall w | w in s.workers :: w in t.workers && t.workers[w] == s.workers[w])
    && (forall w | w in t.workers && w !in s.workers ::
          && t.workers[w].Received?
          && t.workers[w].message in s.broker
          && t.workers[w].message in t.broker
          && s.broker[t.workers[w].message].settlement == Unsettled
          && s.broker[t.workers[w].message].delivered < MAX_DELIVERIES
          && t.workers[w].delivery == t.broker[t.workers[w].message].delivered)
  }

  /** Everything the relay and the broker may change. */
  ghost predicate TransportEffect(s: System, t: System, mayGiveUp: bool) {
    && SameShape(s.db, t.db)
    && t.db.jobs == s.db.jobs && t.db.deadLetters == s.db.deadLetters && t.db.issued == s.db.issued
    && OutboxTransport(s, t, mayGiveUp)
    && MessagesTransport(s, t)
    && WorkersTransport(s, t)
  }

  lemma TransportShape(s: System, move: Move)
    ensures var t := ApplyTransport(s, move);
      && SameShape(s.db, t.db)
      && t.db.jobs == s.db.jobs && t.db.deadLetters == s.db.deadLetters && t.db.issued == s.db.issued
  {
  }

  lemma TransportStates(s: System, move: Move, e: EventId)
    requires e in s.db.outbox
    ensures e in ApplyTransport(s, move).db.outbox
    ensures ApplyTransport(s, move).db.outbox[e].state == Published ==>
      s.db.outbox[e].state == Published || exists m :: m in s.broker && Carries(s.broker, m, e)
    ensures !move.GiveUp? && s.db.outbox[e].state == Published ==> ApplyTransport(s, move).db.outbox[e].state == Published
  {
  }

  lemma TransportMessagesEffect(s: System, move: Move)
    ensures MessagesTransport(s, ApplyTransport(s, move))
    ensures WorkersTransport(s, ApplyTransport(s, move))
  {
  }

  lemma EveryTransportEffect(s: System, move: Move)
    ensures TransportEffect(s, ApplyTransport(s, move), move.GiveUp?)
  {
    TransportShape(s, move);
    forall e | e in s.db.outbox ensures OutboxRowTransport(s, ApplyTransport(s, move), move.GiveUp?, e) {
      TransportStates(s, move, e);
    }
    TransportMessagesEffect(s, move);
  }

  // ---------------------------------------------------------------- each step keeps the references

  lemma EnqueueKeepsTables(db: Db, newId: JobId, kind: Kind, key: Option<string>, now: int)
    requires TablesFit(db) && newId !in db.jobs
    ensures TablesFit(Enqueue(db, newId, kind, key, now).0)
  {
    var after := Enqueue(db, newId, kind, key, now).0;
    assert forall i: nat | i < |db.audits| :: AuditFits(db, i);
    forall e | e in after.outbox ensures RowFits(after, e) {
      if e in db.outbox {
        assert RowFits(db, e);
      }
    }
    forall i: nat | i < |after.audits| ensures AuditFits(after, i) {
      assert AuditFits(db, i);
    }
  }

  lemma RedriveKeepsTables(db: Db, j: JobId, actor: string, reason: string, now: int)
    requires TablesFit(db) && RedriveJob(db, j, actor, reason, now).Success?
    ensures TablesFit(RedriveJob(db, j, actor, reason, now).value)
  {
    var after := RedriveJob(db, j, actor, reason, now).value;
    forall e | e in after.outbox ensures RowFits(after, e) {
      if e in db.outbox {
        assert RowFits(db, e);
      }
    }
    forall i: nat | i < |after.audits| ensures AuditFits(after, i) {
      if i < |db.audits| {
        assert AuditFits(db, i);
      }
    }
  }

  /** Reconciliation finds nothing to repair. */
  lemma ReconcileIsNoOp(db: Db)
    requires TablesFit(db)
    ensures Missing(db.outbox, QueuedWork(db.jobs)) == {}
    ensures Reconcile(db) == db
  {
    assert forall e | e in FirstCommands(QueuedWork(db.jobs)) :: e in db.outbox;
    assert Repaired(db.jobs, db.outbox, QueuedWork(db.jobs)) == db.outbox;
  }

  lemma SameShapeKeepsTables(a: Db, b: Db)
    requires SameShape(a, b) && TablesFit(a)
    ensures TablesFit(b)
  {
    forall e | e in b.outbox ensures RowFits(b, e) {
      assert RowFits(a, e);
    }
    forall i: nat | i < |b.audits| ensures AuditFits(b, i) {
      assert AuditFits(a, i);
    }
  }

  lemma RedriveIsNew(db: Db)
    requires TablesFit(db)
    ensures Redrive(|db.audits|) !in db.outbox
  {
    forall i: nat | Redrive(i) in db.outbox ensures i < |db.audits| {
      assert RowFits(db, Redrive(i));
    }
  }

  lemma EnqueueKeepsRows(db: Db, newId: JobId, kind: Kind, key: Option<string>, now: int, e: EventId)
    requires e in db.outbox
    ensures e in Enqueue(db, newId, kind, key, now).0.outbox
    ensures Enqueue(db, newId, kind, key, now).0.outbox[e] == db.outbox[e]
  {
  }

  /** Queue transactions keep the references and every existing command. */
  lemma QueueKeepsTables(db: Db, op: QueueOp, now: int)
    requires TablesFit(db)
    ensures TablesFit(ApplyQueue(db, op, now))
    ensures forall e | e in db.outbox :: e in ApplyQueue(db, op, now).outbox && ApplyQueue(db, op, now).outbox[e] == db.outbox[e]
  {
    match op
    case EnqueueJob(newId, kind, key) =>
      if newId !in db.jobs {
        EnqueueKeepsTables(db, newId, kind, key, now);
        forall e | e in db.outbox
          ensures e in ApplyQueue(db, op, now).outbox && ApplyQueue(db, op, now).outbox[e] == db.outbox[e]
        {
          EnqueueKeepsRows(db, newId, kind, key, now, e);
        }
      }
    case RedriveFailed(j, actor, reason) =>
      if RedriveJob(db, j, actor, reason, now).Success? {
        RedriveKeepsTables(db, j, actor, reason, now);
        RedriveIsNew(db);
      }
    case ReconcileQueued =>
      ReconcileIsNoOp(db);
  }

  lemma QueueKeepsFits(s: System, op: QueueOp)
    requires Fits(s)
    ensures Fits(s.(db := ApplyQueue(s.db, op, s.now)))
  {
    var t := s.(db := ApplyQueue(s.db, op, s.now));
    QueueKeepsTables(s.db, op, s.now);
    forall m | m in t.broker ensures MessageFits(t, m) {
      assert MessageFits(s, m);
    }
    forall w | w in t.workers ensures WorkerFits(t, w) {
      assert WorkerFits(s, w);
    }
  }

  lemma TransportKeepsFits(s: System, t: System, mayGiveUp: bool)
    requires Fits(s) && TransportEffect(s, t, mayGiveUp)
    ensures Fits(t)
  {
    SameShapeKeepsTables(s.db, t.db);
    forall m | m in t.broker ensures MessageFits(t, m) && t.broker[m].delivered <= MAX_DELIVERIES {
      if m in s.broker {
        assert MessageFits(s, m);
      }
    }
    forall w | w in t.workers ensures WorkerFits(t, w) {
      if w in s.workers {
        assert WorkerFits(s, w);
      }
    }
  }

  lemma WorkKeepsFits(s: System, t: System, w: WorkerId)
    requires Fits(s) && WorkEffect(s, t, w)
    ensures Fits(t)
  {
    SameShapeKeepsTables(s.db, t.db);
    forall m | m in t.broker ensures MessageFits(t, m) && t.broker[m].delivered <= MAX_DELIVERIES {
      assert MessageFits(s, m);
    }
    forall x | x in t.workers ensures WorkerFits(t, x) {
      assert WorkerFits(s, x);
    }
  }

  // ---------------------------------------------------------------- each transaction keeps leases and letters

  ghost predicate DbLeases(db: Db) {
    && (forall j | j in db.jobs :: LeaseFits(db, j))
    && (forall t | t in db.issued :: db.issued[t] in db.jobs)
  }

  /** A transaction that leaves the token history alone and rewrites at most one row well. */
  lemma RowKeepsLeases(db: Db, after: Db, j: JobId)
    requires DbLeases(db) && after.issued == db.issued
    requires after.jobs.Keys == db.jobs.Keys + {j}
    requires forall i | i in db.jobs && i != j :: after.jobs[i] == db.jobs[i]
    requires LeaseFits(after, j)
    ensures DbLeases(after)
  {
    forall i | i in after.jobs ensures LeaseFits(after, i) {
      if i != j {
        assert LeaseFits(db, i);
      }
    }
  }

  lemma ClaimsGrow(issued: map<Token, JobId>, token: Token, j: JobId, i: JobId)
    requires token !in issued
    ensures |ClaimsOf(issued[token := j], i)| == |ClaimsOf(issued, i)| + (if i == j then 1 else 0)
  {
    assert ClaimsOf(issued[token := j], i) == ClaimsOf(issued, i) + (if i == j then {token} else {});
  }

  lemma ClaimKeepsLeases(db: Db, j: JobId, token: Token, now: int)
    requires DbLeases(db) && token !in db.issued
    ensures DbLeases(Claim(db, j, token, now).0)
  {
    if Claimable(db, j, now) {
      var after := Claim(db, j, token, now).0;
      forall i | i in after.jobs ensures LeaseFits(after, i) {
        assert LeaseFits(db, i);
        ClaimsGrow(db.issued, token, j, i);
      }
    }
  }

  lemma LettersGrow(db: Db, workId: Option<JobId>, source: MessageId, j: JobId)
    ensures Unresolved(RecordDeadLetter(db, workId, source).deadLetters, j) ==
            Unresolved(db.deadLetters, j) + (if workId == Some(j) then {|db.deadLetters|} else {})
  {
  }

  lemma FailKeepsLetters(db: Db, j: JobId, token: Token, source: MessageId)
    requires Letters(db)
    ensures Letters(Fail(db, j, token, source).0)
  {
    if Holds(db, j, token) {
      var after := Fail(db, j, token, source).0;
      forall i ensures LettersFit(after, i) {
        assert LettersFit(db, i);
        LettersGrow(WithJob(db, j, Release(db.jobs[j], FAILED)), Some(j), source, i);
      }
    }
  }

  lemma RedriveKeepsLetters(db: Db, j: JobId, actor: string, reason: string, now: int)
    requires Letters(db) && RedriveJob(db, j, actor, reason, now).Success?
    ensures Letters(RedriveJob(db, j, actor, reason, now).value)
  {
    var after := RedriveJob(db, j, actor, reason, now).value;
    forall i ensures LettersFit(after, i) {
      assert LettersFit(db, i);
      assert Unresolved(after.deadLetters, i) == if i == j then {} else Unresolved(db.deadLetters, i);
    }
  }

  /** Rows may change, but none between FAILED and something else, and no letter is written. */
  lemma QuietKeepsLetters(db: Db, after: Db)
    requires Letters(db) && after.deadLetters == db.deadLetters
    requires db.jobs.Keys <= after.jobs.Keys
    requires forall j | j in after.jobs && j !in db.jobs :: after.jobs[j].status == QUEUED
    requires forall j | j in db.jobs ::
      after.jobs[j].kind == db.jobs[j].kind && (after.jobs[j].status == FAILED <==> db.jobs[j].status == FAILED)
    ensures Letters(after)
  {
    forall j ensures LettersFit(after, j) {
      assert LettersFit(db, j);
    }
  }

  /** A dead letter that names no job, or no job of a registered kind. */
  lemma ForeignLetterKeepsLetters(db: Db, workId: Option<JobId>, source: MessageId)
    requires Letters(db)
    requires workId.Some? ==> workId.value in db.jobs && !Registered(db.jobs[workId.value].kind)
    ensures Letters(RecordDeadLetter(db, workId, source))
  {
    forall j ensures LettersFit(RecordDeadLetter(db, workId, source), j) {
      assert LettersFit(db, j);
      LettersGrow(db, workId, source, j);
    }
  }

  // ---------------------------------------------------------------- each act keeps leases and letters

  ghost predicate DbFits(db: Db) {
    DbLeases(db) && Letters(db)
  }

  /** The job a worker's message names exists, and has the message's kind if registered. */
  lemma CommandNamesJob(s: System, w: WorkerId)
    requires Fits(s) && HasCommand(s, w)
    ensures CommandOf(s, w).jobId in s.db.jobs
    ensures Registered(s.db.jobs[CommandOf(s, w).jobId].kind) ==> s.db.jobs[CommandOf(s, w).jobId].kind == CommandOf(s, w).kind
  {
    assert MessageFits(s, s.workers[w].message);
    assert RowFits(s.db, CommandOf(s, w).eventId);
  }

  lemma HolderKeepsDb(db: Db, after: Db, j: JobId, status: Status)
    requires DbFits(db) && j in db.jobs && db.jobs[j].status == RUNNING && status != FAILED && status != RUNNING
    requires j in after.jobs && after == WithJob(db, j, after.jobs[j])
    requires after.jobs[j] == Release(db.jobs[j], status).(availableAt := after.jobs[j].availableAt)
    ensures DbFits(after)
  {
    assert LeaseFits(db, j);
    RowKeepsLeases(db, after, j);
    QuietKeepsLetters(db, after);
  }

  lemma FailKeepsDb(db: Db, j: JobId, token: Token, source: MessageId)
    requires DbFits(db)
    ensures DbFits(Fail(db, j, token, source).0)
  {
    FailKeepsLetters(db, j, token, source);
    if Holds(db, j, token) {
      assert LeaseFits(db, j);
      RowKeepsLeases(db, Fail(db, j, token, source).0, j);
    }
  }

  lemma RecoverKeepsDb(s: System, w: WorkerId)
    requires DbFits(s.db)
    ensures DbFits(ApplyRecover(s, w).db)
  {
    if HasCommand(s, w) && s.workers[w].Failing? && s.workers[w].lease.Some? {
      var p, j := s.workers[w], CommandOf(s, w).jobId;
      if p.delivery >= MAX_DELIVERIES {
        FailKeepsDb(s.db, j, p.lease.value, p.message);
      } else if Holds(s.db, j, p.lease.value) {
        HolderKeepsDb(s.db, Retry(s.db, j, p.lease.value, RetryDelay(p.delivery), s.now).0, j, QUEUED);
      }
    }
  }

  lemma FinishKeepsDb(s: System, w: WorkerId)
    requires DbFits(s.db)
    ensures DbFits(ApplyFinish(s, w).db)
  {
    if HasCommand(s, w) && s.workers[w].Working? && Holds(s.db, CommandOf(s, w).jobId, s.workers[w].token) {
      HolderKeepsDb(s.db, ApplyFinish(s, w).db, CommandOf(s, w).jobId, SUCCEEDED);
    }
  }

  lemma BeatKeepsDb(s: System, w: WorkerId)
    requires DbFits(s.db)
    ensures DbFits(ApplyBeat(s, w).db)
  {
    if HasCommand(s, w) && s.workers[w].Working? {
      var j, token := CommandOf(s, w).jobId, s.workers[w].token;
      if Holds(s.db, j, token) {
        assert LeaseFits(s.db, j);
        RowKeepsLeases(s.db, Heartbeat(s.db, j, token, s.now).0, j);
        QuietKeepsLetters(s.db, Heartbeat(s.db, j, token, s.now).0);
      }
    }
  }

  lemma ClaimKeepsDb(s: System, w: WorkerId, token: Token, seen: bool)
    requires DbFits(s.db)
    ensures DbFits(ApplyClaim(s, w, token, seen).db)
  {
    if HasCommand(s, w) && s.workers[w].Received? && token !in s.db.issued {
      var j := CommandOf(s, w).jobId;
      ClaimKeepsLeases(s.db, j, token, s.now);
      QuietKeepsLetters(s.db, Claim(s.db, j, token, s.now).0);
    }
  }

  lemma LetterKeepsLeases(db: Db, workId: Option<JobId>, source: MessageId)
    requires DbLeases(db)
    ensures DbLeases(RecordDeadLetter(db, workId, source))
  {
    forall j | j in db.jobs ensures LeaseFits(RecordDeadLetter(db, workId, source), j) {
      assert LeaseFits(db, j);
    }
  }

  lemma LookKeepsDb(s: System, w: WorkerId)
    requires Fits(s) && DbFits(s.db)
    ensures DbFits(ApplyLook(s, w).db)
  {
    if HasCommand(s, w) && s.workers[w].Refused? {
      CommandNamesJob(s, w);
      var c := CommandOf(s, w);
      if s.db.jobs[c.jobId].kind != c.kind {
        ForeignLetterKeepsLetters(s.db, Some(c.jobId), s.workers[w].message);
        LetterKeepsLeases(s.db, Some(c.jobId), s.workers[w].message);
      }
    }
  }

  lemma RejectKeepsDb(s: System, w: WorkerId)
    requires DbFits(s.db)
    ensures DbFits(ApplyReject(s, w).db)
  {
    if w in s.workers {
      ForeignLetterKeepsLetters(s.db, None, s.workers[w].message);
      LetterKeepsLeases(s.db, None, s.workers[w].message);
    }
  }

  lemma OtherActsKeepDb(s: System, w: WorkerId, act: Act)
    ensures ApplyAnswer(s, w, act).db == s.db
    ensures ApplyRaise(s, w).db == s.db
  {
  }

  lemma WorkKeepsDb(s: System, w: WorkerId, act: Act)
    requires Fits(s) && DbFits(s.db)
    ensures DbFits(ApplyWork(s, w, act).db)
  {
    match act
    case Reject => RejectKeepsDb(s, w);
    case ClaimJob(token) => ClaimKeepsDb(s, w, token, true);
    case ClaimUnseen(token) => ClaimKeepsDb(s, w, token, false);
    case Look => LookKeepsDb(s, w);
    case Beat => BeatKeepsDb(s, w);
    case Finish => FinishKeepsDb(s, w);
    case Recover => RecoverKeepsDb(s, w);
    case _ => OtherActsKeepDb(s, w, act);
  }

  lemma EnqueueKeepsDb(db: Db, newId: JobId, kind: Kind, key: Option<string>, now: int)
    requires TablesFit(db) && DbFits(db) && newId !in db.jobs
    ensures DbFits(Enqueue(db, newId, kind, key, now).0)
  {
    var after := Enqueue(db, newId, kind, key, now).0;
    QuietKeepsLetters(db, after);
    forall i | i in after.jobs ensures LeaseFits(after, i) {
      if i in db.jobs {
        assert LeaseFits(db, i);
      } else {
        assert ClaimsOf(after.issued, i) == {};
      }
    }
  }

  lemma RedriveKeepsDb(db: Db, j: JobId, actor: string, reason: string, now: int)
    requires DbFits(db) && RedriveJob(db, j, actor, reason, now).Success?
    ensures DbFits(RedriveJob(db, j, actor, reason, now).value)
  {
    RedriveKeepsLetters(db, j, actor, reason, now);
    assert LeaseFits(db, j);
    RowKeepsLeases(db, RedriveJob(db, j, actor, reason, now).value, j);
  }

  lemma QueueKeepsDb(db: Db, op: QueueOp, now: int)
    requires TablesFit(db) && DbFits(db)
    ensures DbFits(ApplyQueue(db, op, now))
  {
    match op
    case EnqueueJob(newId, kind, key) =>
      if newId !in db.jobs {
        EnqueueKeepsDb(db, newId, kind, key, now);
      }
    case RedriveFailed(j, actor, reason) =>
      if RedriveJob(db, j, actor, reason, now).Success? {
        RedriveKeepsDb(db, j, actor, reason, now);
      }
    case ReconcileQueued => ReconcileIsNoOp(db);
  }

  lemma SameDbFacts(a: Db, b: Db)
    requires DbFits(a)
    requires a.jobs == b.jobs && a.deadLetters == b.deadLetters && a.issued == b.issued
    ensures DbFits(b)
  {
    QuietKeepsLetters(a, b);
    forall j | j in b.jobs ensures LeaseFits(b, j) {
      assert LeaseFits(a, j);
    }
  }

  // ---------------------------------------------------------------- beliefs and recorded terms

  ghost predicate Beliefs(s: System) {
    forall w | w in s.workers :: BeliefFits(s, w)
  }

  lemma WorkKeepsBeliefs(s: System, t: System, w: WorkerId)
    requires Fits(s) && Beliefs(s) && WorkEffect(s, t, w)
    ensures Beliefs(t)
  {
    forall x | x in t.workers ensures BeliefFits(t, x) {
      assert BeliefFits(s, x) && WorkerFits(s, x);
    }
  }

  lemma TransportKeepsBeliefs(s: System, t: System, mayGiveUp: bool)
    requires Fits(s) && Beliefs(s) && TransportEffect(s, t, mayGiveUp)
    ensures Beliefs(t)
  {
    forall x | x in t.workers ensures BeliefFits(t, x) {
      if x in s.workers {
        assert BeliefFits(s, x) && WorkerFits(s, x);
      }
    }
  }

  lemma QueueKeepsBeliefs(s: System, op: QueueOp)
    requires Beliefs(s)
    ensures Beliefs(s.(db := ApplyQueue(s.db, op, s.now)))
  {
    var t := s.(db := ApplyQueue(s.db, op, s.now));
    assert t.db.issued == s.db.issued;
    forall x | x in t.workers ensures BeliefFits(t, x) {
      assert BeliefFits(s, x);
    }
  }

  lemma LettersOnlyGrow(a: Db, b: Db, m: MessageId)
    requires |a.deadLetters| <= |b.deadLetters|
    requires forall i :: 0 <= i < |a.deadLetters| ==> b.deadLetters[i].source == a.deadLetters[i].source
    requires HasLetter(a, m)
    ensures HasLetter(b, m)
  {
    var i :| 0 <= i < |a.deadLetters| && a.deadLetters[i].source == m;
    assert b.deadLetters[i].source == m;
  }

  lemma WorkKeepsTerms(s: System, t: System, w: WorkerId)
    requires TermsRecorded(s) && WorkEffect(s, t, w)
    ensures TermsRecorded(t)
  {
    forall m | m in t.broker && t.broker[m].settlement == Termed ensures HasLetter(t.db, m) {
      LettersOnlyGrow(s.db, t.db, m);
    }
    forall x | x in t.workers && t.workers[x].TermDue? ensures HasLetter(t.db, t.workers[x].message) {
      if s.workers[x].TermDue? {
        LettersOnlyGrow(s.db, t.db, s.workers[x].message);
      }
    }
  }

  lemma TransportKeepsTerms(s: System, t: System, mayGiveUp: bool)
    requires TermsRecorded(s) && TransportEffect(s, t, mayGiveUp)
    ensures TermsRecorded(t)
  {
    forall m | m in t.broker && t.broker[m].settlement == Termed ensures HasLetter(t.db, m) {
      assert m in s.broker && s.broker[m].settlement == Termed;
      LettersOnlyGrow(s.db, t.db, m);
    }
    forall x | x in t.workers && t.workers[x].TermDue? ensures HasLetter(t.db, t.workers[x].message) {
      assert x in s.workers && t.workers[x] == s.workers[x];
      LettersOnlyGrow(s.db, t.db, s.workers[x].message);
    }
  }

  lemma QueueKeepsTerms(s: System, op: QueueOp)
    requires TermsRecorded(s)
    ensures TermsRecorded(s.(db := ApplyQueue(s.db, op, s.now)))
  {
    var t := s.(db := ApplyQueue(s.db, op, s.now));
    forall m | m in t.broker && t.broker[m].settlement == Termed ensures HasLetter(t.db, m) {
      LettersOnlyGrow(s.db, t.db, m);
    }
    forall x | x in t.workers && t.workers[x].TermDue? ensures HasLetter(t.db, t.workers[x].message) {
      LettersOnlyGrow(s.db, t.db, s.workers[x].message);
    }
  }
}
