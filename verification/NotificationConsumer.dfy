/** The body of the consumer's message loop as the program writes it, proved against the
    steps of Notifications. Any call outside the process may raise. */
module NotificationConsumers {
  import opened Wrappers
  import opened Notifications

  datatype Seen = Invalid | Duplicate | Fresh

  /** What the exception handler is told: whether it was a ValueError. */
  datatype Raised = Raised(valueError: bool)

  /** Steps of one replica. */
  ghost predicate OnlyBy(steps: seq<Step>, w: ReplicaId) {
    forall step | step in steps :: !step.Publish? && step.w == w
  }

  class NotificationConsumer {
    var messages: seq<Message>
    var deliveries: map<nat, nat>
    var settled: map<nat, Outcome>
    var processed: set<EventId>
    var notices: map<RawId, Notice>
    var graves: map<GraveId, bool>
    ghost var replicas: map<ReplicaId, Phase>

    ghost function State(): State
      reads this
    {
      Notifications.State(messages, deliveries, settled, replicas, processed, notices, graves)
    }

    constructor ()
      ensures State() == START
    {
      messages, deliveries, settled := [], map[], map[];
      processed, notices, graves, replicas := {}, map[], map[], map[];
    }

    method FetchMessage(ghost w: ReplicaId, i: nat) returns (attempt: nat)
      requires i < |messages| && i !in settled && Deliveries(State(), i) < MAX_DELIVERIES && PhaseOf(State(), w).Idle?
      modifies this`deliveries, this`replicas
      ensures State() == Apply(old(State()), Fetch(w, i))
      ensures PhaseOf(State(), w) == Received(i, attempt) && attempt == Deliveries(State(), i)
    {
      attempt := (if i in deliveries then deliveries[i] else 0) + 1;
      deliveries := deliveries[i := attempt];
      replicas := replicas[w := Received(i, attempt)];
    }

    /** Decoding, the envelope checks and the look at the processed table. */
    method CheckMessage(ghost w: ReplicaId, i: nat, ghost attempt: nat) returns (seen: Seen)
      requires i < |messages| && PhaseOf(State(), w) == Received(i, attempt)
      modifies this`replicas
      ensures State() == Apply(old(State()), Check(w))
      ensures PhaseOf(State(), w) ==
        match seen
        case Invalid => Failing(i, attempt, true)
        case Duplicate => Processed(i, attempt)
        case Fresh => Handling(i, attempt)
    {
      var m := messages[i];
      if !m.id.Uuid? || !m.accepted {
        seen := Invalid;
        replicas := replicas[w := Failing(i, attempt, true)];
      } else if m.id.event in processed {
        seen := Duplicate;
        replicas := replicas[w := Processed(i, attempt)];
      } else {
        seen := Fresh;
        replicas := replicas[w := Handling(i, attempt)];
      }
    }

    /** The handler's insert, the processed row and the resolved dead letters, or nothing. */
    method HandleEvent(ghost w: ReplicaId, i: nat, ghost attempt: nat) returns (r: Result<(), Raised>)
      requires i < |messages| && Valid(messages[i]) && PhaseOf(State(), w) == Handling(i, attempt)
      modifies this`processed, this`notices, this`graves, this`replicas
      ensures r.Success? ==> State() == Apply(old(State()), Commit(w)) && PhaseOf(State(), w) == Processed(i, attempt)
      ensures r.Failure? ==> State() == Apply(old(State()), Raise(w, r.error.valueError)) &&
                             PhaseOf(State(), w) == Failing(i, attempt, r.error.valueError)
    {
      var fails: bool := *;
      if fails {
        var valueError: bool := *;
        replicas := replicas[w := Failing(i, attempt, valueError)];
        return Failure(Raised(valueError));
      }
      var m := messages[i];
      if m.recipient.Some? && m.id !in notices {
        notices := notices[m.id := Notice(m.recipient.value)];
      }
      processed := processed + {m.id.event};
      if OfEvent(m.id.event) in graves {
        graves := graves[OfEvent(m.id.event) := true];
      }
      replicas := replicas[w := Processed(i, attempt)];
      return Success(());
    }

    method AckMessage(ghost w: ReplicaId, i: nat, ghost attempt: nat) returns (r: Result<(), Raised>)
      requires PhaseOf(State(), w) == Processed(i, attempt)
      modifies this`settled, this`replicas
      ensures r.Success? ==> State() == Apply(old(State()), Ack(w)) && PhaseOf(State(), w) == Idle && i in settled
      ensures r.Failure? ==> State() == Apply(old(State()), Raise(w, false)) &&
                             PhaseOf(State(), w) == Failing(i, attempt, false) && !r.error.valueError
    {
      var fails: bool := *;
      if fails {
        replicas := replicas[w := Failing(i, attempt, false)];
        return Failure(Raised(false));
      }
      if i !in settled {
        settled := settled[i := Acked];
      }
      replicas := replicas[w := Idle];
      return Success(());
    }

    method BuryMessage(ghost w: ReplicaId, i: nat, ghost attempt: nat, ghost permanent: bool)
      requires i < |messages| && PhaseOf(State(), w) == Failing(i, attempt, permanent) && (permanent || attempt >= MAX_DELIVERIES)
      modifies this`graves, this`replicas
      ensures State() == Apply(old(State()), Bury(w)) && PhaseOf(State(), w) == Buried(i, attempt)
      ensures GraveOf(State(), i) in graves
    {
      var grave := if messages[i].id.Uuid? then OfEvent(messages[i].id.event) else OfPlace(i);
      graves := graves[grave := grave in graves && graves[grave]];
      replicas := replicas[w := Buried(i, attempt)];
    }

    method TermMessage(ghost w: ReplicaId, i: nat, ghost attempt: nat)
      requires PhaseOf(State(), w) == Buried(i, attempt)
      modifies this`settled, this`replicas
      ensures State() == Apply(old(State()), Term(w)) && PhaseOf(State(), w) == Idle && i in settled
      ensures i !in old(settled) ==> settled[i] == Termed
    {
      if i !in settled {
        settled := settled[i := Termed];
      }
      replicas := replicas[w := Idle];
    }

    /** An exception nobody catches: the process stops and the message stays unsettled. */
    method Stop(ghost w: ReplicaId)
      modifies this`replicas
      ensures State() == Apply(old(State()), Crash(w)) && PhaseOf(State(), w) == Idle
    {
      replicas := replicas[w := Idle];
    }

    method GiveBack(ghost w: ReplicaId, ghost i: nat, ghost attempt: nat)
      requires PhaseOf(State(), w) == Failing(i, attempt, false) && attempt < MAX_DELIVERIES
      modifies this`replicas
      ensures State() == Apply(old(State()), Nak(w)) && PhaseOf(State(), w) == Idle
    {
      replicas := replicas[w := Idle];
    }

    /** The exception handler: give the message back, or record it and terminate it. A
        second exception leaves it unsettled. Returns whether the handler got through. */
    method Recover(ghost w: ReplicaId, i: nat, attempt: nat, raised: Raised) returns (through: bool, ghost steps: seq<Step>)
      requires i < |messages| && PhaseOf(State(), w) == Failing(i, attempt, raised.valueError)
      modifies this`settled, this`graves, this`replicas
      ensures State() == Run(old(State()), steps) && OnlyBy(steps, w) && PhaseOf(State(), w) == Idle
      ensures through ==> i in settled || (!raised.valueError && attempt < MAX_DELIVERIES)
    {
      ghost var start := State();
      if !raised.valueError && attempt < MAX_DELIVERIES {
        RunOne(start, Nak(w));
        GiveBack(w, i, attempt);
        return true, [Nak(w)];
      }
      var fails: bool := *;
      if fails {
        RunOne(start, Crash(w));
        Stop(w);
        return false, [Crash(w)];
      }
      BuryMessage(w, i, attempt, raised.valueError);
      fails := *;
      if fails {
        ghost var end := RunTwo(start, Bury(w), Crash(w));
        Stop(w);
        return false, [Bury(w), Crash(w)];
      }
      ghost var end := RunTwo(start, Bury(w), Term(w));
      TermMessage(w, i, attempt);
      return true, [Bury(w), Term(w)];
    }

    /** What follows a commit, or a duplicate: the acknowledgement, which may raise. */
    method Acknowledge(ghost w: ReplicaId, i: nat, attempt: nat) returns (through: bool, ghost steps: seq<Step>)
      requires i < |messages| && PhaseOf(State(), w) == Processed(i, attempt)
      modifies this`settled, this`graves, this`replicas
      ensures State() == Run(old(State()), steps) && OnlyBy(steps, w) && PhaseOf(State(), w) == Idle
      ensures through ==> i in settled || attempt < MAX_DELIVERIES
    {
      ghost var start := State();
      var acked := AckMessage(w, i, attempt);
      if acked.Success? {
        RunOne(start, Ack(w));
        return true, [Ack(w)];
      }
      RunOne(start, Raise(w, false));
      ghost var more: seq<Step>;
      through, more := Recover(w, i, attempt, Raised(false));
      RunJoin(start, [Raise(w, false)], more);
      return through, [Raise(w, false)] + more;
    }

    /** What follows a fresh event: the transaction, which may raise. */
    method Process(ghost w: ReplicaId, i: nat, attempt: nat) returns (through: bool, ghost steps: seq<Step>)
      requires i < |messages| && Valid(messages[i]) && PhaseOf(State(), w) == Handling(i, attempt)
      modifies this`settled, this`processed, this`notices, this`graves, this`replicas
      ensures State() == Run(old(State()), steps) && OnlyBy(steps, w) && PhaseOf(State(), w) == Idle
      ensures through ==> i in settled || attempt < MAX_DELIVERIES
    {
      ghost var start := State();
      ghost var more: seq<Step>;
      var handled := HandleEvent(w, i, attempt);
      if handled.Success? {
        RunOne(start, Commit(w));
        through, more := Acknowledge(w, i, attempt);
        RunJoin(start, [Commit(w)], more);
        return through, [Commit(w)] + more;
      }
      ghost var raise := Raise(w, handled.error.valueError);
      RunOne(start, raise);
      through, more := Recover(w, i, attempt, handled.error);
      RunJoin(start, [raise], more);
      return through, [raise] + more;
    }

    /** One delivery. The state is that of a run of steps of this replica alone, and
        unless a second exception cut it short the message is settled or may be delivered
        again. */
    method ConsumeOne(ghost w: ReplicaId, i: nat) returns (through: bool, ghost steps: seq<Step>)
      requires i < |messages| && i !in settled && Deliveries(State(), i) < MAX_DELIVERIES && PhaseOf(State(), w).Idle?
      modifies this`deliveries, this`settled, this`processed, this`notices, this`graves, this`replicas
      ensures State() == Run(old(State()), steps) && OnlyBy(steps, w) && PhaseOf(State(), w) == Idle
      ensures through ==> i in settled || Deliveries(State(), i) < MAX_DELIVERIES
    {
      ghost var start := State();
      var attempt := FetchMessage(w, i);
      var seen := CheckMessage(w, i, attempt);
      ghost var looked := RunTwo(start, Fetch(w, i), Check(w));
      ghost var more: seq<Step>;
      match seen {
        case Invalid => through, more := Recover(w, i, attempt, Raised(true));
        case Duplicate => through, more := Acknowledge(w, i, attempt);
        case Fresh => through, more := Process(w, i, attempt);
      }
      RunJoin(start, [Fetch(w, i), Check(w)], more);
      steps := [Fetch(w, i), Check(w)] + more;
    }
  }

  lemma RunOne(s: State, step: Step)
    ensures Run(s, [step]) == Apply(s, step)
  {
    assert [step][1..] == [];
    assert Run(Apply(s, step), []) == Apply(s, step);
  }
}
