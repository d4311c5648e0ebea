/** The work protocol as a transition system: a clock, the tables, a broker that
    redelivers an unsettled message up to MAX_DELIVERIES times, an outbox relay, and any
    number of workers, each of which may crash between any two database or broker calls.

    A step that is not enabled leaves the system as it is, so a run is any sequence of steps. */
module WorkProtocol {
  import opened Wrappers
  import opened WorkTables

  type WorkerId = nat

  datatype Command = Command(eventId: EventId, jobId: JobId, kind: Kind)

  datatype Settlement = Unsettled | Acked | Termed

  /** A message without a command is one whose envelope does not parse. */
  datatype Message = Message(command: Option<Command>, delivered: nat, settlement: Settlement)

  /** Where a worker stands in `handle_message`. */
  datatype Phase =
    | Received(message: MessageId, delivery: nat)
    | Refused(message: MessageId, delivery: nat)  // the claim returned no row
    | Working(message: MessageId, delivery: nat, token: Token)
    | Failing(message: MessageId, delivery: nat, lease: Option<Token>)  // in the exception handler
    | AckDue(message: MessageId, delivery: nat, lease: Option<Token>)
    | LastAckDue(message: MessageId, delivery: nat)  // the acknowledgement after a recorded failure
    | NakDue(message: MessageId, delivery: nat)
    | TermDue(message: MessageId, delivery: nat)

  datatype System = System(now: int, db: Db, broker: map<MessageId, Message>, workers: map<WorkerId, Phase>)

  /** Transactions on the queue that no message causes. */
  datatype QueueOp =
    | EnqueueJob(newId: JobId, kind: Kind, key: Option<string>)
    | RedriveFailed(job: JobId, actor: string, reason: string)
    | ReconcileQueued

  /** The relay and the broker. */
  datatype Move =
    | Publish(eventId: EventId, message: MessageId)
    | MarkPublished(eventId: EventId)
    | GiveUp(eventId: EventId)
    | Reopen(eventId: EventId)
    | Garbage(message: MessageId)
    | Deliver(worker: WorkerId, message: MessageId)

  /** What a worker does next with the message it was handed. */
  datatype Act =
    | Reject
    | ClaimJob(token: Token)
    | ClaimUnseen(token: Token)  // the claim commits, or not, but its answer is lost
    | Look
    | Beat
    | Finish
    | Raise
    | Recover
    | Ack
    | Nak
    | Term
    | Crash

  datatype Step = Tick(seconds: nat) | Queue(op: QueueOp) | Transport(move: Move) | Work(worker: WorkerId, act: Act)

  function Init(now: int): System {
    System(now, EMPTY, map[], map[])
  }

  // ---------------------------------------------------------------- steps

  function To(s: System, w: WorkerId, p: Phase): System {
    s.(workers := s.workers[w := p])
  }

  function Leave(s: System, w: WorkerId): System {
    s.(workers := s.workers - {w})
  }

  function Settle(s: System, m: MessageId, how: Settlement): System {
    if m in s.broker && s.broker[m].settlement == Unsettled
    then s.(broker := s.broker[m := s.broker[m].(settlement := how)])
    else s
  }

  function RowState(s: System, e: EventId, state: OutboxState): System
    requires e in s.db.outbox
  {
    s.(db := s.db.(outbox := s.db.outbox[e := s.db.outbox[e].(state := state)]))
  }

  predicate Carries(broker: map<MessageId, Message>, m: MessageId, e: EventId) {
    m in broker && broker[m].command.Some? && broker[m].command.value.eventId == e
  }

  /** The command of the message a worker is handling. */
  predicate HasCommand(s: System, w: WorkerId) {
    w in s.workers && s.workers[w].message in s.broker && s.broker[s.workers[w].message].command.Some?
  }

  function CommandOf(s: System, w: WorkerId): Command
    requires HasCommand(s, w)
  {
    s.broker[s.workers[w].message].command.value
  }

  /** Seconds before a retry: min(300, 2 ** min(max(1, delivery), 8)). */
  function RetryDelay(delivery: nat): nat {
    var exponent := if delivery < 1 then 1 else if delivery > 8 then 8 else delivery;
    if Power(exponent) < 300 then Power(exponent) else 300
  }

  function Power(n: nat): nat {
    if n == 0 then 1 else 2 * Power(n - 1)
  }

  function ApplyReject(s: System, w: WorkerId): System {
    if w in s.workers && s.workers[w].Received? && !HasCommand(s, w) then
      var p := s.workers[w];
      To(s.(db := RecordDeadLetter(s.db, None, p.message)), w, TermDue(p.message, p.delivery))
    else s
  }

  function ApplyClaim(s: System, w: WorkerId, token: Token, seen: bool): System {
    if HasCommand(s, w) && s.workers[w].Received? && token !in s.db.issued then
      var p := s.workers[w];
      var (db, claimed) := Claim(s.db, CommandOf(s, w).jobId, token, s.now);
      To(s.(db := db), w,
        if !seen then Failing(p.message, p.delivery, None)
        else if claimed then Working(p.message, p.delivery, token)
        else Refused(p.message, p.delivery))
    else s
  }

  function ApplyLook(s: System, w: WorkerId): System {
    if HasCommand(s, w) && s.workers[w].Refused? then
      var p, c := s.workers[w], CommandOf(s, w);
      if c.jobId !in s.db.jobs || s.db.jobs[c.jobId].kind != c.kind then
        To(s.(db := RecordDeadLetter(s.db, Some(c.jobId), p.message)), w, TermDue(p.message, p.delivery))
      else if Terminal(s.db.jobs[c.jobId].status) then To(s, w, AckDue(p.message, p.delivery, None))
      else To(s, w, Received(p.message, p.delivery))
    else s
  }

  function ApplyFinish(s: System, w: WorkerId): System {
    if HasCommand(s, w) && s.workers[w].Working? then
      var p := s.workers[w];
      var (db, held) := Complete(s.db, CommandOf(s, w).jobId, p.token);
      To(s.(db := db), w,
        if held then AckDue(p.message, p.delivery, Some(p.token)) else Failing(p.message, p.delivery, Some(p.token)))
    else s
  }

  function ApplyRaise(s: System, w: WorkerId): System {
    if !HasCommand(s, w) then s
    else
      var p := s.workers[w];
      match p
      case Received(m, d) => To(s, w, Failing(m, d, None))
      case Refused(m, d) => To(s, w, Failing(m, d, None))
      case Working(m, d, token) => To(s, w, Failing(m, d, Some(token)))
      case AckDue(m, d, lease) => To(s, w, Failing(m, d, lease))
      case TermDue(m, d) => To(s, w, Failing(m, d, None))
      case Failing(_, _, _) => s
      case LastAckDue(_, _) => Leave(s, w)
      case NakDue(_, _) => Leave(s, w)
  }

  function ApplyFail(s: System, w: WorkerId, token: Token): System
    requires HasCommand(s, w)
  {
    var p := s.workers[w];
    var (db, held) := Fail(s.db, CommandOf(s, w).jobId, token, p.message);
    if held then To(s.(db := db), w, LastAckDue(p.message, p.delivery)) else Leave(s, w)
  }

  function ApplyRetry(s: System, w: WorkerId, token: Token): System
    requires HasCommand(s, w)
  {
    var p := s.workers[w];
    var (db, held) := Retry(s.db, CommandOf(s, w).jobId, token, RetryDelay(p.delivery), s.now);
    if held then To(s.(db := db), w, NakDue(p.message, p.delivery)) else Leave(s, w)
  }

  function ApplyRecover(s: System, w: WorkerId): System {
    if HasCommand(s, w) && s.workers[w].Failing? then
      var p := s.workers[w];
      if p.lease.None? then To(s, w, NakDue(p.message, p.delivery))
      else if p.delivery >= MAX_DELIVERIES then ApplyFail(s, w, p.lease.value)
      else ApplyRetry(s, w, p.lease.value)
    else s
  }

  function ApplyBeat(s: System, w: WorkerId): System {
    if HasCommand(s, w) && s.workers[w].Working?
    then s.(db := Heartbeat(s.db, CommandOf(s, w).jobId, s.workers[w].token, s.now).0)
    else s
  }

  function ApplyAnswer(s: System, w: WorkerId, act: Act): System {
    if w !in s.workers then s
    else
      var p := s.workers[w];
      match act
      case Ack => if p.AckDue? || p.LastAckDue? then Leave(Settle(s, p.message, Acked), w) else s
      case Nak => if p.NakDue? then Leave(s, w) else s
      case Term => if p.TermDue? then Leave(Settle(s, p.message, Termed), w) else s
      case Crash => Leave(s, w)
      case _ => s
  }

  function ApplyWork(s: System, w: WorkerId, act: Act): System {
    match act
    case Reject => ApplyReject(s, w)
    case ClaimJob(token) => ApplyClaim(s, w, token, true)
    case ClaimUnseen(token) => ApplyClaim(s, w, token, false)
    case Look => ApplyLook(s, w)
    case Beat => ApplyBeat(s, w)
    case Finish => ApplyFinish(s, w)
    case Raise => ApplyRaise(s, w)
    case Recover => ApplyRecover(s, w)
    case _ => ApplyAnswer(s, w, act)
  }

  function ApplyTransport(s: System, move: Move): System {
    match move
    case Publish(e, m) =>
      if e in s.db.outbox && s.db.outbox[e].state == Pending && m !in s.broker then
        var row := s.db.outbox[e];
        s.(broker := s.broker[m := Message(Some(Command(e, row.jobId, row.kind)), 0, Unsettled)])
      else s
    case MarkPublished(e) =>
      if e in s.db.outbox && exists m :: m in s.broker && Carries(s.broker, m, e) then RowState(s, e, Published) else s
    case GiveUp(e) => if e in s.db.outbox then RowState(s, e, DeadLettered) else s
    case Reopen(e) => if e in s.db.outbox && s.db.outbox[e].state == DeadLettered then RowState(s, e, Pending) else s
    case Garbage(m) => if m in s.broker then s else s.(broker := s.broker[m := Message(None, 0, Unsettled)])
    case Deliver(w, m) =>
      if w !in s.workers && m in s.broker && s.broker[m].settlement == Unsettled && s.broker[m].delivered < MAX_DELIVERIES then
        var n := s.broker[m].delivered + 1;
        To(s.(broker := s.broker[m := s.broker[m].(delivered := n)]), w, Received(m, n))
      else s
  }

  function ApplyQueue(db: Db, op: QueueOp, now: int): Db {
    match op
    case EnqueueJob(newId, kind, key) => if newId in db.jobs then db else Enqueue(db, newId, kind, key, now).0
    case RedriveFailed(j, actor, reason) =>
      var r := RedriveJob(db, j, actor, reason, now);
      if r.Success? then r.value else db
    case ReconcileQueued => Reconcile(db)
  }

  function Apply(s: System, step: Step): System {
    match step
    case Tick(seconds) => s.(now := s.now + seconds)
    case Queue(op) => s.(db := ApplyQueue(s.db, op, s.now))
    case Transport(move) => ApplyTransport(s, move)
    case Work(w, act) => ApplyWork(s, w, act)
  }

  function Run(s: System, steps: seq<Step>): System
    decreases |steps|
  {
    if steps == [] then s else Run(Apply(s, steps[0]), steps[1..])
  }
}
