/** The notification consumer: any number of replicas taking messages from a broker that
    redelivers, writing one database, and stopping between any two calls. */
module Notifications {
  import opened Wrappers

  type EventId = int
  type ReplicaId = int

  const MAX_DELIVERIES: nat := 8

  /** The id text of an envelope. One event id has several spellings (case, braces,
      hyphens); the processed table keeps the parsed id, the deduplication key the text. */
  datatype RawId = Uuid(event: EventId, spelling: nat) | NotUuid | Missing

  /** An envelope on the stream: its id text, whether type, subject and version are
      accepted, and the recipient its payload names, if any. */
  datatype Message = Message(id: RawId, accepted: bool, recipient: Option<string>)

  datatype Notice = Notice(recipient: string)

  datatype Outcome = Acked | Termed

  /** Key of a dead letter: the event, or the place in the stream when there is none. */
  datatype GraveId = OfEvent(event: EventId) | OfPlace(place: nat)

  datatype Phase =
    | Idle
    | Received(i: nat, attempt: nat)
    | Handling(i: nat, attempt: nat)
    | Processed(i: nat, attempt: nat)
    | Failing(i: nat, attempt: nat, permanent: bool)
    | Buried(i: nat, attempt: nat)

  datatype State = State(
    messages: seq<Message>,
    deliveries: map<nat, nat>,
    settled: map<nat, Outcome>,
    replicas: map<ReplicaId, Phase>,
    processed: set<EventId>,
    notices: map<RawId, Notice>,
    graves: map<GraveId, bool>)

  const START := State([], map[], map[], map[], {}, map[], map[])

  function PhaseOf(s: State, w: ReplicaId): Phase {
    if w in s.replicas then s.replicas[w] else Idle
  }

  function Deliveries(s: State, i: nat): nat {
    if i in s.deliveries then s.deliveries[i] else 0
  }

  predicate Valid(m: Message) {
    m.id.Uuid? && m.accepted
  }

  function GraveOf(s: State, i: nat): GraveId
    requires i < |s.messages|
  {
    if s.messages[i].id.Uuid? then OfEvent(s.messages[i].id.event) else OfPlace(i)
  }

  function Enter(s: State, w: ReplicaId, phase: Phase): State {
    s.(replicas := s.replicas[w := phase])
  }

  /** Only the first settlement of a message counts. */
  function Settle(s: State, i: nat, outcome: Outcome): State {
    if i in s.settled then s else s.(settled := s.settled[i := outcome])
  }

  /** One step of the broker or of a replica; a step that is not enabled changes nothing. */
  datatype Step =
    | Publish(m: Message)
    | Fetch(w: ReplicaId, i: nat)
    | Check(w: ReplicaId)
    | Commit(w: ReplicaId)
    | Raise(w: ReplicaId, valueError: bool)
    | Ack(w: ReplicaId)
    | LoseAck(w: ReplicaId)
    | Nak(w: ReplicaId)
    | Bury(w: ReplicaId)
    | Term(w: ReplicaId)
    | Crash(w: ReplicaId)

  /** The transaction: the handler's notification, the processed row, resolved dead letters. */
  function Committed(s: State, m: Message): State
    requires Valid(m)
  {
    var notices :=
      if m.recipient.Some? && m.id !in s.notices then s.notices[m.id := Notice(m.recipient.value)] else s.notices;
    var graves :=
      if OfEvent(m.id.event) in s.graves then s.graves[OfEvent(m.id.event) := true] else s.graves;
    s.(notices := notices, processed := s.processed + {m.id.event}, graves := graves)
  }

  function Apply(s: State, step: Step): State {
    match step
    case Publish(m) => s.(messages := s.messages + [m])
    case Fetch(w, i) =>
      if i < |s.messages| && i !in s.settled && Deliveries(s, i) < MAX_DELIVERIES && PhaseOf(s, w).Idle? then
        Enter(s.(deliveries := s.deliveries[i := Deliveries(s, i) + 1]), w, Received(i, Deliveries(s, i) + 1))
      else s
    case Check(w) =>
      (match PhaseOf(s, w)
       case Received(i, n) =>
         if i >= |s.messages| then s
         else if !Valid(s.messages[i]) then Enter(s, w, Failing(i, n, true))
         else if s.messages[i].id.event in s.processed then Enter(s, w, Processed(i, n))
         else Enter(s, w, Handling(i, n))
       case _ => s)
    case Commit(w) =>
      (match PhaseOf(s, w)
       case Handling(i, n) =>
         if i < |s.messages| && Valid(s.messages[i]) then Enter(Committed(s, s.messages[i]), w, Processed(i, n)) else s
       case _ => s)
    case Raise(w, valueError) =>
      (match PhaseOf(s, w)
       case Received(i, n) => Enter(s, w, Failing(i, n, false))
       case Handling(i, n) => Enter(s, w, Failing(i, n, valueError))
       case Processed(i, n) => Enter(s, w, Failing(i, n, false))
       case _ => s)
    case Ack(w) =>
      (match PhaseOf(s, w)
       case Processed(i, n) => Enter(Settle(s, i, Acked), w, Idle)
       case _ => s)
    case LoseAck(w) => if PhaseOf(s, w).Processed? then Enter(s, w, Idle) else s
    case Nak(w) =>
      (match PhaseOf(s, w)
       case Failing(i, n, permanent) => if !permanent && n < MAX_DELIVERIES then Enter(s, w, Idle) else s
       case _ => s)
    case Bury(w) =>
      (match PhaseOf(s, w)
       case Failing(i, n, permanent) =>
         if i < |s.messages| && (permanent || n >= MAX_DELIVERIES) then
           var g := GraveOf(s, i);
           Enter(s.(graves := s.graves[g := g in s.graves && s.graves[g]]), w, Buried(i, n))
         else s
       case _ => s)
    case Term(w) =>
      (match PhaseOf(s, w)
       case Buried(i, n) => Enter(Settle(s, i, Termed), w, Idle)
       case _ => s)
    case Crash(w) => Enter(s, w, Idle)
  }

  function Run(s: State, steps: seq<Step>): State
    decreases |steps|
  {
    if steps == [] then s else Run(Apply(s, steps[0]), steps[1..])
  }

  // ------------------------------------------------ what is kept

  ghost predicate EventDone(s: State, i: nat) {
    i < |s.messages| && Valid(s.messages[i]) && s.messages[i].id.event in s.processed
  }

  ghost predicate HasGrave(s: State, i: nat) {
    i < |s.messages| && GraveOf(s, i) in s.graves
  }

  /** What a replica may rely on in each phase. */
  ghost predicate PhaseJustified(s: State, p: Phase) {
    match p
    case Idle => true
    case Received(i, n) => i < |s.messages| && n <= Deliveries(s, i)
    case Handling(i, n) => i < |s.messages| && Valid(s.messages[i]) && n <= Deliveries(s, i)
    case Processed(i, n) => EventDone(s, i) && n <= Deliveries(s, i)
    case Failing(i, n, _) => i < |s.messages| && n <= Deliveries(s, i)
    case Buried(i, n) => HasGrave(s, i) && n <= Deliveries(s, i)
  }

  /** A settled message has left its evidence in the database. */
  ghost predicate SettlementJustified(s: State, i: nat) {
    i in s.settled ==> match s.settled[i] case Acked => EventDone(s, i) case Termed => HasGrave(s, i)
  }

  /** A notice belongs to a processed event and to a message of that very spelling. */
  ghost predicate NoticeJustified(s: State, id: RawId) {
    id in s.notices ==>
      && id.Uuid? && id.event in s.processed
      && exists i :: 0 <= i < |s.messages| && Sends(s, i, id, s.notices[id])
  }

  ghost predicate Sends(s: State, i: nat, id: RawId, notice: Notice)
    requires i < |s.messages|
  {
    Valid(s.messages[i]) && s.messages[i].id == id && s.messages[i].recipient == Some(notice.recipient)
  }

  /** A processed event was processed from one of its messages, whose notice is there. */
  ghost predicate EventJustified(s: State, e: EventId) {
    e in s.processed ==> exists i :: 0 <= i < |s.messages| && Served(s, i, e)
  }

  ghost predicate Served(s: State, i: nat, e: EventId)
    requires i < |s.messages|
  {
    && Valid(s.messages[i]) && s.messages[i].id.event == e
    && (s.messages[i].recipient.Some? ==> s.messages[i].id in s.notices)
  }

  ghost predicate Holds(p: Phase, i: nat, n: nat) {
    !p.Idle? && p.i == i && p.attempt == n
  }

  /** No two replicas hold one delivery of one message. */
  ghost predicate Apart(p: Phase, q: Phase) {
    !p.Idle? && !q.Idle? && p.i == q.i ==> p.attempt != q.attempt
  }

  ghost predicate Inv(s: State) {
    && (forall w :: PhaseJustified(s, PhaseOf(s, w)))
    && (forall v, w | v != w :: Apart(PhaseOf(s, v), PhaseOf(s, w)))
    && (forall i :: SettlementJustified(s, i))
    && (forall id :: NoticeJustified(s, id))
    && (forall e :: EventJustified(s, e))
    && (forall i :: Deliveries(s, i) <= MAX_DELIVERIES)
  }

  /** What every step keeps of the past: messages, settlements, processed events,
      notices and dead letters are never taken back. */
  ghost predicate Grows(s: State, t: State) {
    && s.messages <= t.messages
    && (forall i | i in s.settled :: i in t.settled && t.settled[i] == s.settled[i])
    && s.processed <= t.processed
    && (forall id | id in s.notices :: id in t.notices && t.notices[id] == s.notices[id])
    && (forall g | g in s.graves :: g in t.graves)
    && (forall i :: Deliveries(s, i) <= Deliveries(t, i))
  }

  lemma CommitGrows(s: State, w: ReplicaId)
    ensures Grows(s, Apply(s, Commit(w)))
  {
    var t := Apply(s, Commit(w));
    forall i ensures Deliveries(s, i) <= Deliveries(t, i) {
    }
  }

  lemma FetchGrows(s: State, w: ReplicaId, i: nat)
    ensures Grows(s, Apply(s, Fetch(w, i)))
  {
    var t := Apply(s, Fetch(w, i));
    assert t.messages == s.messages && t.settled == s.settled && t.graves == s.graves;
    forall j ensures Deliveries(s, j) <= Deliveries(t, j) {
    }
  }

  lemma BuryGrows(s: State, w: ReplicaId)
    ensures Grows(s, Apply(s, Bury(w)))
  {
    var t := Apply(s, Bury(w));
    assert t.messages == s.messages && t.settled == s.settled && t.deliveries == s.deliveries;
    forall i ensures Deliveries(s, i) <= Deliveries(t, i) {
    }
  }

  lemma ChecksKeepTables(s: State, step: Step)
    requires step.Check? || step.Crash?
    ensures Apply(s, step).(replicas := s.replicas) == s
  {
  }

  lemma RaiseKeepsTables(s: State, step: Step)
    requires step.Raise?
    ensures Apply(s, step).(replicas := s.replicas) == s
  {
  }

  lemma LeavesKeepTables(s: State, step: Step)
    requires step.LoseAck? || step.Nak?
    ensures Apply(s, step).(replicas := s.replicas) == s
  {
  }

  lemma SettlementGrows(s: State, step: Step)
    requires step.Ack? || step.Term?
    ensures Grows(s, Apply(s, step))
  {
    var t := Apply(s, step);
    assert t.deliveries == s.deliveries && t.messages == s.messages && t.graves == s.graves;
    forall i ensures Deliveries(s, i) <= Deliveries(t, i) {
    }
  }

  lemma SameTablesGrow(s: State, t: State)
    requires t.(replicas := s.replicas, messages := s.messages) == s && s.messages <= t.messages
    ensures Grows(s, t)
  {
    forall i ensures Deliveries(s, i) <= Deliveries(t, i) {
    }
  }

  lemma StepGrows(s: State, step: Step)
    ensures Grows(s, Apply(s, step))
  {
    if step.Commit? {
      CommitGrows(s, step.w);
    } else if step.Fetch? {
      FetchGrows(s, step.w, step.i);
    } else if step.Bury? {
      BuryGrows(s, step.w);
    } else if step.Ack? || step.Term? {
      SettlementGrows(s, step);
    } else {
      if step.Check? || step.Crash? {
        ChecksKeepTables(s, step);
      } else if step.Raise? {
        RaiseKeepsTables(s, step);
      } else if !step.Publish? {
        LeavesKeepTables(s, step);
      }
      SameTablesGrow(s, Apply(s, step));
    }
  }

  lemma {:induction false} RunGrows(s: State, steps: seq<Step>)
    ensures Grows(s, Run(s, steps))
    decreases |steps|
  {
    if steps != [] {
      StepGrows(s, steps[0]);
      RunGrows(Apply(s, steps[0]), steps[1..]);
      GrowsChain(s, Apply(s, steps[0]), Run(s, steps));
    }
  }

  lemma GrowsChain(s: State, t: State, u: State)
    requires Grows(s, t) && Grows(t, u)
    ensures Grows(s, u)
  {
    forall i ensures Deliveries(s, i) <= Deliveries(u, i) {
      assert Deliveries(s, i) <= Deliveries(t, i) <= Deliveries(u, i);
    }
  }

  lemma PhaseStaysJustified(s: State, t: State, p: Phase)
    requires Grows(s, t) && PhaseJustified(s, p)
    ensures PhaseJustified(t, p)
  {
    if !p.Idle? {
      assert Deliveries(s, p.i) <= Deliveries(t, p.i);
      assert s.messages[p.i] == t.messages[p.i];
    }
  }

  /** A step moves the replica that takes it and no other. */
  lemma OthersStay(s: State, step: Step, w: ReplicaId)
    requires step.Publish? || w != step.w
    ensures PhaseOf(Apply(s, step), w) == PhaseOf(s, w)
  {
  }

  lemma MoverIsJustified(s: State, step: Step)
    requires !step.Publish? && PhaseJustified(s, PhaseOf(s, step.w))
    ensures PhaseOf(Apply(s, step), step.w) == PhaseOf(s, step.w) || PhaseJustified(Apply(s, step), PhaseOf(Apply(s, step), step.w))
  {
  }

  lemma StepKeepsPhases(s: State, step: Step)
    requires Inv(s)
    ensures forall w :: PhaseJustified(Apply(s, step), PhaseOf(Apply(s, step), w))
  {
    var t := Apply(s, step);
    StepGrows(s, step);
    forall w ensures PhaseJustified(t, PhaseOf(t, w)) {
      assert PhaseJustified(s, PhaseOf(s, w));
      PhaseStaysJustified(s, t, PhaseOf(s, w));
      if step.Publish? || w != step.w {
        OthersStay(s, step, w);
      } else {
        MoverIsJustified(s, step);
      }
    }
  }

  /** The replica that moves keeps its delivery, lets go of it, or takes a new one. */
  lemma MoverHolds(s: State, step: Step, i: nat, n: nat)
    requires !step.Publish? && Holds(PhaseOf(Apply(s, step), step.w), i, n)
    ensures Holds(PhaseOf(s, step.w), i, n) || n == Deliveries(s, i) + 1
  {
  }

  lemma MoverStaysApart(s: State, step: Step, p: Phase)
    requires !step.Publish? && PhaseJustified(s, p) && Apart(PhaseOf(s, step.w), p)
    ensures Apart(PhaseOf(Apply(s, step), step.w), p)
  {
    var q := PhaseOf(Apply(s, step), step.w);
    if !p.Idle? && !q.Idle? && p.i == q.i {
      MoverHolds(s, step, q.i, q.attempt);
    }
  }

  lemma StepKeepsApart(s: State, step: Step)
    requires Inv(s)
    ensures forall v, w | v != w :: Apart(PhaseOf(Apply(s, step), v), PhaseOf(Apply(s, step), w))
  {
    var t := Apply(s, step);
    forall v, w | v != w ensures Apart(PhaseOf(t, v), PhaseOf(t, w)) {
      assert Apart(PhaseOf(s, v), PhaseOf(s, w));
      assert PhaseJustified(s, PhaseOf(s, v)) && PhaseJustified(s, PhaseOf(s, w));
      if step.Publish? || step.w != v {
        OthersStay(s, step, v);
      }
      if step.Publish? || step.w != w {
        OthersStay(s, step, w);
      }
      if !step.Publish? && step.w == v {
        MoverStaysApart(s, step, PhaseOf(s, w));
      }
      if !step.Publish? && step.w == w {
        MoverStaysApart(s, step, PhaseOf(s, v));
      }
    }
  }

  lemma EvidenceStays(s: State, t: State, i: nat)
    requires Grows(s, t) && i in s.settled && SettlementJustified(s, i)
    ensures SettlementJustified(t, i)
  {
    assert s.messages[i] == t.messages[i];
  }

  lemma NewSettlement(s: State, step: Step, i: nat)
    requires i !in s.settled && (step.Publish? || PhaseJustified(s, PhaseOf(s, step.w)))
    ensures SettlementJustified(Apply(s, step), i)
  {
  }

  lemma StepKeepsSettlements(s: State, step: Step)
    requires Inv(s)
    ensures forall i :: SettlementJustified(Apply(s, step), i)
  {
    var t := Apply(s, step);
    StepGrows(s, step);
    forall i ensures SettlementJustified(t, i) {
      assert SettlementJustified(s, i);
      if i in s.settled {
        EvidenceStays(s, t, i);
      } else {
        assert step.Publish? || PhaseJustified(s, PhaseOf(s, step.w));
        NewSettlement(s, step, i);
      }
    }
  }

  lemma StepKeepsNotices(s: State, step: Step)
    requires Inv(s)
    ensures forall id :: NoticeJustified(Apply(s, step), id)
  {
    var t := Apply(s, step);
    StepGrows(s, step);
    forall id ensures NoticeJustified(t, id) {
      assert NoticeJustified(s, id);
      if id in s.notices {
        var i :| 0 <= i < |s.messages| && Sends(s, i, id, s.notices[id]);
        assert Sends(t, i, id, t.notices[id]);
      } else if id in t.notices {
        var i := PhaseOf(s, step.w).i;
        assert Sends(t, i, id, t.notices[id]);
      }
    }
  }

  lemma StepKeepsEvents(s: State, step: Step)
    requires Inv(s)
    ensures forall e :: EventJustified(Apply(s, step), e)
  {
    var t := Apply(s, step);
    StepGrows(s, step);
    forall e ensures EventJustified(t, e) {
      assert EventJustified(s, e);
      if e in s.processed {
        var i :| 0 <= i < |s.messages| && Served(s, i, e);
        assert Served(t, i, e);
      } else if e in t.processed {
        var i := PhaseOf(s, step.w).i;
        assert Served(t, i, e);
      }
    }
  }

  lemma StepKeepsInv(s: State, step: Step)
    requires Inv(s)
    ensures Inv(Apply(s, step))
  {
    StepKeepsPhases(s, step);
    StepKeepsApart(s, step);
    StepKeepsSettlements(s, step);
    StepKeepsNotices(s, step);
    StepKeepsEvents(s, step);
    forall i ensures Deliveries(Apply(s, step), i) <= MAX_DELIVERIES {
      assert Deliveries(s, i) <= MAX_DELIVERIES;
    }
  }

  lemma {:induction false} RunKeepsInv(s: State, steps: seq<Step>)
    requires Inv(s)
    ensures Inv(Run(s, steps))
    decreases |steps|
  {
    if steps != [] {
      StepKeepsInv(s, steps[0]);
      RunKeepsInv(Apply(s, steps[0]), steps[1..]);
    }
  }

  // ------------------------------------------------ what an exception leads to

  /** A failure is permanent only if the envelope was not acceptable, or the handler raised
      a ValueError; an exception before or behind the handler is always transient. */
  lemma FailureIs(s: State, step: Step, i: nat, n: nat, permanent: bool)
    requires !step.Publish? && !PhaseOf(s, step.w).Failing?
    requires PhaseOf(Apply(s, step), step.w) == Failing(i, n, permanent)
    ensures var p := PhaseOf(s, step.w);
      && p in {Received(i, n), Handling(i, n), Processed(i, n)}
      && (step.Check? ==> p.Received? && permanent && i < |s.messages| && !Valid(s.messages[i]))
      && (step.Raise? && p.Handling? ==> permanent == step.valueError)
      && (step.Raise? && !p.Handling? ==> !permanent)
      && (step.Check? || step.Raise?)
  {
  }

  /** A transient failure before the eighth delivery is given back; every other is buried,
      the event's dead letter staying resolved if it was. */
  lemma AfterFailure(s: State, w: ReplicaId, i: nat, n: nat, permanent: bool)
    requires PhaseOf(s, w) == Failing(i, n, permanent) && i < |s.messages|
    ensures if permanent || n >= 8
            then Apply(s, Nak(w)) == s && PhaseOf(Apply(s, Bury(w)), w) == Buried(i, n) && GraveOf(s, i) in Apply(s, Bury(w)).graves
            else Apply(s, Bury(w)) == s && PhaseOf(Apply(s, Nak(w)), w) == Idle && i !in Apply(s, Nak(w)).settled - s.settled.Keys
    ensures permanent || n >= 8 ==>
      Apply(s, Bury(w)).graves[GraveOf(s, i)] == (GraveOf(s, i) in s.graves && s.graves[GraveOf(s, i)])
  {
  }

  /** What a commit writes, row by row: the notice of the recipient under the id as it is
      spelled, unless that is there, the processed event, and the resolution of its dead
      letter; and nothing else. */
  lemma CommitIs(s: State, w: ReplicaId, i: nat, n: nat)
    requires PhaseOf(s, w) == Handling(i, n) && i < |s.messages| && Valid(s.messages[i])
    ensures var m, t := s.messages[i], Apply(s, Commit(w));
      && t.processed == s.processed + {m.id.event}
      && (forall id :: id in t.notices <==> id in s.notices || (id == m.id && m.recipient.Some?))
      && (forall id | id in s.notices :: t.notices[id] == s.notices[id])
      && (m.recipient.Some? && m.id !in s.notices ==> t.notices[m.id].recipient == m.recipient.value)
      && t.graves.Keys == s.graves.Keys
      && (forall g | g in s.graves :: t.graves[g] == (s.graves[g] || g == OfEvent(m.id.event)))
      && t.settled == s.settled && t.deliveries == s.deliveries && t.messages == s.messages
      && PhaseOf(t, w) == Processed(i, n)
  {
  }

  // ------------------------------------------------ settled messages

  /** At every moment of every run: an acknowledged message's event is in the processed
      table, and a terminated message has a dead letter. */
  lemma SettledHasEvidence(steps: seq<Step>, i: nat)
    requires i in Run(START, steps).settled
    ensures var s := Run(START, steps);
      && i < |s.messages|
      && (s.settled[i] == Acked ==> Valid(s.messages[i]) && s.messages[i].id.event in s.processed)
      && (s.settled[i] == Termed ==> GraveOf(s, i) in s.graves)
  {
    RunKeepsInv(START, steps);
    assert SettlementJustified(Run(START, steps), i);
  }

  /** The event is processed and still has an unresolved dead letter. */
  ghost predicate Contradicted(s: State, e: EventId) {
    e in s.processed && OfEvent(e) in s.graves && !s.graves[OfEvent(e)]
  }

  ghost predicate Commits(s: State, step: Step, e: EventId) {
    step.Commit? &&
      var p := PhaseOf(s, step.w);
      p.Handling? && p.i < |s.messages| && Valid(s.messages[p.i]) && s.messages[p.i].id.event == e
  }

  /** The step writes the first dead letter of an event that is processed already. */
  ghost predicate BuriesProcessed(s: State, step: Step, e: EventId) {
    && e in s.processed && OfEvent(e) !in s.graves
    && step.Bury?
    && var p := PhaseOf(s, step.w);
       p.Failing? && p.i < |s.messages| && (p.permanent || p.attempt >= MAX_DELIVERIES) && GraveOf(s, p.i) == OfEvent(e)
  }

  lemma CommitOrBuryContradicts(s: State, step: Step, e: EventId)
    requires step.Commit? || step.Bury?
    ensures Contradicted(Apply(s, step), e) <==>
            (Contradicted(s, e) && !Commits(s, step, e)) || BuriesProcessed(s, step, e)
  {
  }

  lemma StepContradicts(s: State, step: Step, e: EventId)
    ensures Contradicted(Apply(s, step), e) <==>
            (Contradicted(s, e) && !Commits(s, step, e)) || BuriesProcessed(s, step, e)
  {
    if step.Commit? || step.Bury? {
      CommitOrBuryContradicts(s, step, e);
    } else {
      OthersKeepRecords(s, step);
    }
  }

  lemma OthersKeepRecords(s: State, step: Step)
    requires !step.Commit? && !step.Bury?
    ensures Apply(s, step).processed == s.processed && Apply(s, step).graves == s.graves
  {
  }

  ghost predicate NeverCommits(s: State, steps: seq<Step>, e: EventId)
    decreases |steps|
  {
    steps == [] || (!Commits(s, steps[0], e) && NeverCommits(Apply(s, steps[0]), steps[1..], e))
  }

  /** Somewhere in the run the first dead letter of the event is written behind a commit
      of it, and no commit of it follows. */
  ghost predicate BuriesLast(s: State, steps: seq<Step>, e: EventId)
    decreases |steps|
  {
    steps != [] &&
      var t := Apply(s, steps[0]);
      (BuriesProcessed(s, steps[0], e) && NeverCommits(t, steps[1..], e)) || BuriesLast(t, steps[1..], e)
  }

  lemma {:induction false} RunContradicts(s: State, steps: seq<Step>, e: EventId)
    ensures Contradicted(Run(s, steps), e) <==>
            (Contradicted(s, e) && NeverCommits(s, steps, e)) || BuriesLast(s, steps, e)
    decreases |steps|
  {
    if steps != [] {
      StepContradicts(s, steps[0], e);
      RunContradicts(Apply(s, steps[0]), steps[1..], e);
    }
  }

  /** An event ends processed and with an unresolved dead letter in exactly the runs in
      which the first dead letter is written behind a commit and no commit follows. */
  lemma ContradictedIff(steps: seq<Step>, e: EventId)
    ensures Contradicted(Run(START, steps), e) <==> BuriesLast(START, steps, e)
  {
    RunContradicts(START, steps, e);
  }

  /** There are such runs with one replica and one message: when the acknowledgement of the
      last delivery fails, the event is processed and has an unresolved dead letter. */
  lemma {:induction false} ProcessedAndBuried(w: ReplicaId, m: Message)
    requires Valid(m)
    ensures var s := Run(START, [Publish(m)] + Wasted(w, 7) + [Fetch(w, 0), Check(w), Commit(w), Raise(w, false), Bury(w), Term(w)]);
      && s.settled == map[0 := Termed]
      && m.id.event in s.processed
      && s.graves == map[OfEvent(m.id.event) := false]
  {
    var s := Apply(START, Publish(m));
    var last := [Fetch(w, 0), Check(w), Commit(w), Raise(w, false), Bury(w), Term(w)];
    var steps := [Publish(m)] + Wasted(w, 7) + last;
    assert steps[0] == Publish(m) && steps[1..] == Wasted(w, 7) + last;
    assert Run(START, steps) == Run(s, Wasted(w, 7) + last);
    RunJoin(s, Wasted(w, 7), last);
    WastedRun(s, w, 7);
    LastDelivery(Run(s, Wasted(w, 7)), w, m);
  }

  /** A replica takes a fresh, acceptable message and finds its event new. */
  lemma Takes(s: State, w: ReplicaId, i: nat) returns (t: State)
    requires i < |s.messages| && i !in s.settled && Deliveries(s, i) < MAX_DELIVERIES && PhaseOf(s, w).Idle?
    requires Valid(s.messages[i]) && s.messages[i].id.event !in s.processed
    ensures t == Run(s, [Fetch(w, i), Check(w)])
    ensures PhaseOf(t, w) == Handling(i, Deliveries(s, i) + 1)
    ensures t.(deliveries := s.deliveries, replicas := s.replicas) == s
    ensures forall v :: v != w ==> PhaseOf(t, v) == PhaseOf(s, v)
    ensures forall j :: j != i ==> Deliveries(t, j) == Deliveries(s, j)
  {
    t := RunTwo(s, Fetch(w, i), Check(w));
  }

  lemma CommitsThenRaises(s: State, w: ReplicaId, i: nat, n: nat) returns (t: State)
    requires i < |s.messages| && Valid(s.messages[i]) && PhaseOf(s, w) == Handling(i, n)
    ensures t == Run(s, [Commit(w), Raise(w, false)])
    ensures PhaseOf(t, w) == Failing(i, n, false)
    ensures t.(replicas := s.replicas) == Committed(s, s.messages[i])
  {
    t := RunTwo(s, Commit(w), Raise(w, false));
  }

  lemma BuriesThenTerminates(s: State, w: ReplicaId, i: nat) returns (t: State)
    requires i < |s.messages| && PhaseOf(s, w) == Failing(i, MAX_DELIVERIES, false)
    ensures t == Run(s, [Bury(w), Term(w)])
    ensures t.processed == s.processed
    ensures t.settled == Settle(s, i, Termed).settled
    ensures t.graves == s.graves[GraveOf(s, i) := GraveOf(s, i) in s.graves && s.graves[GraveOf(s, i)]]
  {
    t := RunTwo(s, Bury(w), Term(w));
  }

  /** The last delivery, whose acknowledgement fails after the commit. */
  lemma LastDelivery(s: State, w: ReplicaId, m: Message)
    requires s.messages == [m] && Valid(m) && Deliveries(s, 0) == 7 && PhaseOf(s, w) == Idle
    requires s.settled == map[] && s.graves == map[] && m.id.event !in s.processed
    ensures var t := Run(s, [Fetch(w, 0), Check(w), Commit(w), Raise(w, false), Bury(w), Term(w)]);
      t.settled == map[0 := Termed] && m.id.event in t.processed && t.graves == map[OfEvent(m.id.event) := false]
  {
    var a, b, c := [Fetch(w, 0), Check(w)], [Commit(w), Raise(w, false)], [Bury(w), Term(w)];
    assert [Fetch(w, 0), Check(w), Commit(w), Raise(w, false), Bury(w), Term(w)] == a + (b + c);
    RunJoin(s, a, b + c);
    var taken := Takes(s, w, 0);
    RunJoin(taken, b, c);
    var raised := CommitsThenRaises(taken, w, 0, 8);
    var end := BuriesThenTerminates(raised, w, 0);
  }

  lemma RunTwo(s: State, a: Step, b: Step) returns (t: State)
    ensures t == Run(s, [a, b]) == Apply(Apply(s, a), b)
  {
    t := Apply(Apply(s, a), b);
    assert [a, b][1..] == [b] && [b][1..] == [];
    assert Run(Apply(s, a), [b]) == Run(t, []);
  }

  /** Deliveries of the first message that end in a crash. */
  ghost function Wasted(w: ReplicaId, n: nat): seq<Step> {
    if n == 0 then [] else Wasted(w, n - 1) + [Fetch(w, 0), Crash(w)]
  }

  lemma {:induction false} RunJoin(s: State, first: seq<Step>, second: seq<Step>)
    ensures Run(s, first + second) == Run(Run(s, first), second)
    decreases |first|
  {
    if first == [] {
      assert first + second == second;
    } else {
      assert (first + second)[1..] == first[1..] + second;
      RunJoin(Apply(s, first[0]), first[1..], second);
    }
  }

  lemma {:induction false} WastedRun(s: State, w: ReplicaId, n: nat)
    requires |s.messages| > 0 && 0 !in s.settled && PhaseOf(s, w) == Idle && n <= MAX_DELIVERIES && 0 !in s.deliveries
    ensures var t := Run(s, Wasted(w, n));
      && Deliveries(t, 0) == n && PhaseOf(t, w) == Idle
      && t.(deliveries := s.deliveries, replicas := s.replicas) == s
    decreases n
  {
    if n > 0 {
      WastedRun(s, w, n - 1);
      RunJoin(s, Wasted(w, n - 1), [Fetch(w, 0), Crash(w)]);
      var t := Run(s, Wasted(w, n - 1));
      var u := RunTwo(t, Fetch(w, 0), Crash(w));
    }
  }

  // ------------------------------------------------ at most one notice

  /** The messages from which a notice of the event can be written. */
  ghost predicate Names(messages: seq<Message>, i: nat, e: EventId) {
    i < |messages| && Valid(messages[i]) && messages[i].id.event == e && messages[i].recipient.Some?
  }

  /** Every message of an event that names a recipient writes the id in the same way. */
  ghost predicate OneSpelling(messages: seq<Message>, e: EventId) {
    forall i: nat, j: nat | Names(messages, i, e) && Names(messages, j, e) :: messages[i].id == messages[j].id
  }

  ghost predicate NoticeOf(s: State, id: RawId, e: EventId) {
    id in s.notices && id.Uuid? && id.event == e
  }

  ghost predicate AtMostOneNotice(s: State, e: EventId) {
    forall a, b | NoticeOf(s, a, e) && NoticeOf(s, b, e) :: a == b
  }

  lemma NoticeIsNamed(s: State, a: RawId, e: EventId) returns (i: nat)
    requires NoticeJustified(s, a) && NoticeOf(s, a, e)
    ensures Names(s.messages, i, e) && s.messages[i].id == a
  {
    i :| 0 <= i < |s.messages| && Sends(s, i, a, s.notices[a]);
  }

  /** Redelivery, duplicate publication, concurrent replicas and crashes never give an
      event with one spelling a second notice, nor change the one it has. */
  lemma NotifiedOnce(steps: seq<Step>, e: EventId)
    requires OneSpelling(Run(START, steps).messages, e)
    ensures AtMostOneNotice(Run(START, steps), e)
  {
    var s := Run(START, steps);
    RunKeepsInv(START, steps);
    forall a, b | NoticeOf(s, a, e) && NoticeOf(s, b, e) ensures a == b {
      assert NoticeJustified(s, a) && NoticeJustified(s, b);
      var i := NoticeIsNamed(s, a, e);
      var j := NoticeIsNamed(s, b, e);
    }
  }

  /** A notice belongs to a processed event, and nothing ever changes or removes it. */
  lemma NoticesStay(steps: seq<Step>, more: seq<Step>, e: EventId, a: RawId)
    requires NoticeOf(Run(START, steps), a, e)
    ensures e in Run(START, steps).processed
    ensures NoticeOf(Run(START, steps + more), a, e)
    ensures Run(START, steps + more).notices[a] == Run(START, steps).notices[a]
  {
    RunKeepsInv(START, steps);
    assert NoticeJustified(Run(START, steps), a);
    RunJoin(START, steps, more);
    RunGrows(Run(START, steps), more);
  }

  /** A processed event whose messages all name a recipient has its notice. */
  lemma ProcessedIsNotified(steps: seq<Step>, e: EventId)
    requires var s := Run(START, steps);
      && e in s.processed
      && forall i | 0 <= i < |s.messages| && Valid(s.messages[i]) :: s.messages[i].id.event == e ==> s.messages[i].recipient.Some?
    ensures exists id :: NoticeOf(Run(START, steps), id, e)
  {
    var s := Run(START, steps);
    RunKeepsInv(START, steps);
    assert EventJustified(s, e);
    var i :| 0 <= i < |s.messages| && Served(s, i, e);
    assert NoticeOf(s, s.messages[i].id, e);
  }

  /** Publishing a list of messages. */
  ghost function Publishing(ms: seq<Message>): seq<Step> {
    if ms == [] then [] else Publishing(ms[..|ms| - 1]) + [Publish(ms[|ms| - 1])]
  }

  lemma {:induction false} PublishingRun(ms: seq<Message>)
    ensures Run(START, Publishing(ms)) == START.(messages := ms)
    decreases |ms|
  {
    if ms != [] {
      var front, last := ms[..|ms| - 1], Publish(ms[|ms| - 1]);
      PublishingRun(front);
      RunJoin(START, Publishing(front), [last]);
      RunLast(Run(START, Publishing(front)), last);
      assert front + [ms[|ms| - 1]] == ms;
    }
  }

  lemma RunLast(s: State, step: Step)
    ensures Run(s, [step]) == Apply(s, step)
  {
    assert [step][1..] == [];
    assert Run(Apply(s, step), []) == Apply(s, step);
  }

  ghost function BothLook(v: ReplicaId, w: ReplicaId, i: nat, j: nat): seq<Step> {
    [Fetch(v, i), Fetch(w, j)] + ([Check(v), Check(w)] + [Commit(v), Commit(w)])
  }

  /** With two spellings the processed table does not help: two replicas that both look
      before either commits leave two notices for one event. */
  lemma TwoSpellingsTwoNotices(ms: seq<Message>, e: EventId, i: nat, j: nat, v: ReplicaId, w: ReplicaId)
    requires v != w && Names(ms, i, e) && Names(ms, j, e) && ms[i].id != ms[j].id
    ensures var s := Run(START, Publishing(ms) + BothLook(v, w, i, j));
      s.messages == ms && NoticeOf(s, ms[i].id, e) && NoticeOf(s, ms[j].id, e)
  {
    PublishingRun(ms);
    RunJoin(START, Publishing(ms), BothLook(v, w, i, j));
    var s := START.(messages := ms);
    RunJoin(s, [Fetch(v, i), Fetch(w, j)], [Check(v), Check(w)] + [Commit(v), Commit(w)]);
    var fetched := BothFetch(s, v, w, i, j);
    RunJoin(fetched, [Check(v), Check(w)], [Commit(v), Commit(w)]);
    var checked := BothCheck(fetched, v, w, i, j);
    BothCommit(checked, v, w, i, j);
  }

  lemma BothFetch(s: State, v: ReplicaId, w: ReplicaId, i: nat, j: nat) returns (t: State)
    requires i < |s.messages| && j < |s.messages| && i != j && v != w && s.(messages := []) == START
    ensures t == Run(s, [Fetch(v, i), Fetch(w, j)])
    ensures PhaseOf(t, v) == Received(i, 1) && PhaseOf(t, w) == Received(j, 1)
    ensures t.messages == s.messages && t.processed == {}
  {
    t := RunTwo(s, Fetch(v, i), Fetch(w, j));
  }

  lemma BothCheck(s: State, v: ReplicaId, w: ReplicaId, i: nat, j: nat) returns (t: State)
    requires i < |s.messages| && j < |s.messages| && v != w
    requires s.processed == {} && Valid(s.messages[i]) && Valid(s.messages[j])
    requires PhaseOf(s, v) == Received(i, 1) && PhaseOf(s, w) == Received(j, 1)
    ensures t == Run(s, [Check(v), Check(w)])
    ensures PhaseOf(t, v) == Handling(i, 1) && PhaseOf(t, w) == Handling(j, 1) && t.messages == s.messages
  {
    t := RunTwo(s, Check(v), Check(w));
  }

  lemma BothCommit(s: State, v: ReplicaId, w: ReplicaId, i: nat, j: nat)
    requires i < |s.messages| && j < |s.messages| && v != w && Valid(s.messages[i]) && Valid(s.messages[j])
    requires s.messages[i].recipient.Some? && s.messages[j].recipient.Some?
    requires PhaseOf(s, v) == Handling(i, 1) && PhaseOf(s, w) == Handling(j, 1)
    ensures var t := Run(s, [Commit(v), Commit(w)]);
      t.messages == s.messages && s.messages[i].id in t.notices && s.messages[j].id in t.notices
  {
    var t := RunTwo(s, Commit(v), Commit(w));
    var u := CommitWrites(s, v, i, w);
    var end := CommitWrites(u, w, j, v);
  }

  lemma CommitWrites(s: State, w: ReplicaId, i: nat, v: ReplicaId) returns (t: State)
    requires i < |s.messages| && v != w && Valid(s.messages[i]) && s.messages[i].recipient.Some?
    requires PhaseOf(s, w) == Handling(i, 1)
    ensures t == Apply(s, Commit(w))
    ensures t.messages == s.messages && PhaseOf(t, v) == PhaseOf(s, v)
    ensures s.messages[i].id in t.notices && s.notices.Keys <= t.notices.Keys
  {
    t := Apply(s, Commit(w));
  }

  /** Every run over the published messages leaves at most one notice of the event. */
  ghost predicate AlwaysNotifiedOnce(ms: seq<Message>, e: EventId) {
    forall steps | Run(START, steps).messages == ms :: AtMostOneNotice(Run(START, steps), e)
  }

  /** At most one notice, whatever the broker and the replicas do, if and only if the
      messages that name a recipient spell the id in one way. */
  lemma NotifiedOnceIff(ms: seq<Message>, e: EventId)
    ensures AlwaysNotifiedOnce(ms, e) <==> OneSpelling(ms, e)
  {
    if OneSpelling(ms, e) {
      forall steps | Run(START, steps).messages == ms ensures AtMostOneNotice(Run(START, steps), e) {
        NotifiedOnce(steps, e);
      }
    } else {
      var i: nat, j: nat :| Names(ms, i, e) && Names(ms, j, e) && ms[i].id != ms[j].id;
      TwoSpellingsTwoNotices(ms, e, i, j, 0, 1);
      assert !AtMostOneNotice(Run(START, Publishing(ms) + BothLook(0, 1, i, j)), e);
    }
  }

  // ------------------------------------------------ when a message is dropped

  ghost predicate InHand(s: State, i: nat) {
    exists w :: Holds(PhaseOf(s, w), i, MAX_DELIVERIES)
  }

  /** The deliveries are used up and no replica holds the last one. */
  ghost predicate Spent(s: State, i: nat) {
    Deliveries(s, i) >= MAX_DELIVERIES && !InHand(s, i)
  }

  /** The broker will not deliver the message again, and it was never settled. */
  ghost predicate Dropped(s: State, i: nat) {
    Spent(s, i) && i !in s.settled
  }

  /** The replica that holds the last delivery stops, or its acknowledgement is lost. */
  ghost predicate LosesLast(s: State, step: Step, i: nat) {
    && (step.Crash? || (step.LoseAck? && PhaseOf(s, step.w).Processed?))
    && Holds(PhaseOf(s, step.w), i, MAX_DELIVERIES)
  }

  ghost predicate RunLosesLast(s: State, steps: seq<Step>, i: nat)
    decreases |steps|
  {
    steps != [] && (LosesLast(s, steps[0], i) || RunLosesLast(Apply(s, steps[0]), steps[1..], i))
  }

  /** Every other step on the last delivery keeps it or settles the message. */
  lemma LastAttemptSettles(s: State, step: Step, i: nat)
    requires !step.Publish? && !LosesLast(s, step, i)
    requires Holds(PhaseOf(s, step.w), i, MAX_DELIVERIES)
    ensures var t := Apply(s, step); i in t.settled || Holds(PhaseOf(t, step.w), i, MAX_DELIVERIES)
  {
  }

  lemma LastFetchHolds(s: State, step: Step, i: nat)
    requires Deliveries(s, i) < MAX_DELIVERIES <= Deliveries(Apply(s, step), i)
    ensures !step.Publish? && Holds(PhaseOf(Apply(s, step), step.w), i, MAX_DELIVERIES)
  {
  }

  lemma SpentComesFromLoss(s: State, step: Step, i: nat)
    requires !Spent(s, i) && Spent(Apply(s, step), i)
    ensures LosesLast(s, step, i) || i in Apply(s, step).settled
  {
    var t := Apply(s, step);
    if Deliveries(s, i) >= MAX_DELIVERIES {
      var w :| Holds(PhaseOf(s, w), i, MAX_DELIVERIES);
      if step.Publish? || w != step.w {
        OthersStay(s, step, w);
        assert false;
      } else if !LosesLast(s, step, i) {
        LastAttemptSettles(s, step, i);
      }
    } else {
      LastFetchHolds(s, step, i);
    }
  }

  lemma SpentStays(s: State, step: Step, i: nat)
    requires Inv(s) && Spent(s, i)
    ensures Spent(Apply(s, step), i)
  {
    var t := Apply(s, step);
    StepGrows(s, step);
    assert Deliveries(s, i) <= Deliveries(t, i);
    forall w ensures !Holds(PhaseOf(t, w), i, MAX_DELIVERIES) {
      assert !Holds(PhaseOf(s, w), i, MAX_DELIVERIES);
      if step.Publish? || w != step.w {
        OthersStay(s, step, w);
      } else if Holds(PhaseOf(t, w), i, MAX_DELIVERIES) {
        MoverHolds(s, step, i, MAX_DELIVERIES);
        assert false;
      }
    }
  }

  lemma LossSpends(s: State, step: Step, i: nat)
    requires Inv(s) && LosesLast(s, step, i)
    ensures Spent(Apply(s, step), i)
  {
    var t := Apply(s, step);
    assert PhaseJustified(s, PhaseOf(s, step.w));
    forall w ensures !Holds(PhaseOf(t, w), i, MAX_DELIVERIES) {
      if w != step.w {
        OthersStay(s, step, w);
        assert Apart(PhaseOf(s, w), PhaseOf(s, step.w));
      }
    }
    assert Deliveries(t, i) == Deliveries(s, i);
  }

  lemma {:induction false} RunStaysSpent(s: State, steps: seq<Step>, i: nat)
    requires Inv(s) && Spent(s, i)
    ensures Spent(Run(s, steps), i)
    decreases |steps|
  {
    if steps != [] {
      StepKeepsInv(s, steps[0]);
      SpentStays(s, steps[0], i);
      RunStaysSpent(Apply(s, steps[0]), steps[1..], i);
    }
  }

  lemma SettledStays(s: State, steps: seq<Step>, i: nat)
    requires i in s.settled
    ensures i in Run(s, steps).settled
  {
    RunGrows(s, steps);
  }

  lemma {:induction false} DroppedFrom(s: State, steps: seq<Step>, i: nat)
    requires Inv(s) && !Spent(s, i)
    ensures Dropped(Run(s, steps), i) <==> i !in Run(s, steps).settled && RunLosesLast(s, steps, i)
    decreases |steps|
  {
    if steps != [] {
      var t := Apply(s, steps[0]);
      StepKeepsInv(s, steps[0]);
      if Spent(t, i) {
        SpentComesFromLoss(s, steps[0], i);
        RunStaysSpent(t, steps[1..], i);
        if i in t.settled {
          SettledStays(t, steps[1..], i);
        }
      } else {
        if LosesLast(s, steps[0], i) {
          LossSpends(s, steps[0], i);
        }
        DroppedFrom(t, steps[1..], i);
      }
    }
  }

  /** In every run: a message is dropped in exactly the runs that never settle it and in
      which the replica that held its last delivery stopped, or lost the acknowledgement,
      at that moment. Stops on earlier deliveries and on other messages do no harm. */
  lemma DroppedIff(steps: seq<Step>, i: nat)
    ensures Dropped(Run(START, steps), i) <==>
            i !in Run(START, steps).settled && RunLosesLast(START, steps, i)
  {
    forall w ensures PhaseJustified(START, PhaseOf(START, w)) {
    }
    DroppedFrom(START, steps, i);
  }

  /** Without such a stop a message that has used up its deliveries is settled, so its
      event is processed or it has a dead letter, or a replica is working on it. */
  lemma NothingIsDropped(steps: seq<Step>, i: nat)
    requires !RunLosesLast(START, steps, i) && Deliveries(Run(START, steps), i) >= MAX_DELIVERIES
    ensures var s := Run(START, steps); InHand(s, i) || EventDone(s, i) || HasGrave(s, i)
  {
    DroppedIff(steps, i);
    RunKeepsInv(START, steps);
    assert SettlementJustified(Run(START, steps), i);
  }

  /** Crashes alone can use up the deliveries and leave no trace in the database. */
  lemma CrashesDropMessage(w: ReplicaId, m: Message)
    ensures var s := Run(Apply(START, Publish(m)), Wasted(w, MAX_DELIVERIES));
      && Dropped(s, 0) && s.processed == {} && s.graves == map[]
  {
    var s := Apply(START, Publish(m));
    WastedRun(s, w, MAX_DELIVERIES);
    WastedHoldsNothing(s, w, MAX_DELIVERIES);
  }

  lemma {:induction false} WastedHoldsNothing(s: State, w: ReplicaId, n: nat)
    requires forall v :: PhaseOf(s, v) == Idle
    ensures forall v :: PhaseOf(Run(s, Wasted(w, n)), v) == Idle
    decreases n
  {
    if n > 0 {
      WastedHoldsNothing(s, w, n - 1);
      RunJoin(s, Wasted(w, n - 1), [Fetch(w, 0), Crash(w)]);
      var t := Run(s, Wasted(w, n - 1));
      var u := RunTwo(t, Fetch(w, 0), Crash(w));
      forall v ensures PhaseOf(u, v) == Idle {
        assert PhaseOf(t, v) == Idle;
        if v != w {
          OthersStay(t, Fetch(w, 0), v);
          OthersStay(Apply(t, Fetch(w, 0)), Crash(w), v);
        }
      }
    }
  }
}
