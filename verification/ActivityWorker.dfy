/** The body of the worker's message handler as the program writes it, over the
    repository methods, proved against the steps of WorkProtocol. Any call may raise. The
    steps of other workers, which WorkProtocol interleaves, do not occur here. */
module ActivityWorkers {
  import opened Wrappers
  import opened WorkTables
  import opened WorkRepositories
  import opened WorkProtocol
  import opened WorkRuns

  /** Steps of one worker, and the passing of time. */
  ghost predicate OnlyBy(steps: seq<Step>, w: WorkerId) {
    forall step | step in steps :: step.Tick? || (step.Work? && step.worker == w)
  }

  ghost predicate HasLetter(letters: seq<DeadLetter>, m: MessageId) {
    exists k :: 0 <= k < |letters| && letters[k].source == m
  }

  class ActivityWorker {
    const repo: WorkRepository
    var now: int
    var broker: map<MessageId, Message>
    /** Where the next lease token comes from. */
    var nextToken: Token
    ghost var workers: map<WorkerId, Phase>

    constructor (now: int)
      ensures Valid() && Sys() == Init(now) && fresh(repo)
    {
      repo := new WorkRepository();
      this.now, broker, nextToken, workers := now, map[], 0, map[];
    }

    ghost function Sys(): System
      reads this, repo
    {
      System(now, repo.State(), broker, workers)
    }

    ghost predicate Valid()
      reads this, repo
    {
      && (forall t | t in repo.issued :: t < nextToken)
      && (forall j | j in repo.jobs && repo.jobs[j].status == RUNNING :: repo.jobs[j].leaseExpiresAt.Some?)
    }

    /** The worker stands in phase p, and its message carries command c. */
    ghost predicate Stands(w: WorkerId, p: Phase, c: Command)
      reads this
    {
      && w in workers && workers[w] == p
      && p.message in broker && broker[p.message].command == Some(c)
    }

    /** The command's job is in a final state. */
    ghost predicate Finished(c: Command)
      reads this, repo
    {
      c.jobId in repo.jobs && Terminal(repo.jobs[c.jobId].status)
    }

    /** The command's job is there, of its kind, and not finished. */
    ghost predicate Waits(c: Command)
      reads this, repo
    {
      c.jobId in repo.jobs && repo.jobs[c.jobId].kind == c.kind && !Terminal(repo.jobs[c.jobId].status)
    }

    /** No acknowledgement without a finished job. */
    ghost predicate AckedIsFinished(m: MessageId, c: Command)
      reads this, repo
    {
      m in broker && broker[m].settlement == Acked ==> Finished(c)
    }

    /** The command's job is missing, or another kind of job has its id. */
    ghost predicate Mismatched(c: Command)
      reads this, repo
    {
      c.jobId in repo.jobs ==> repo.jobs[c.jobId].kind != c.kind
    }

    /** The message has the settlement it had, or was acknowledged for a finished job, or
        terminated for a mismatched one with its dead letter stored. */
    ghost predicate SettledRightly(m: MessageId, c: Command, before: Settlement)
      reads this, repo
    {
      m in broker &&
      match broker[m].settlement
      case Unsettled => before == Unsettled
      case Acked => before == Acked || Finished(c)
      case Termed => before == Termed || (Mismatched(c) && HasLetter(repo.deadLetters, m))
    }

    method RejectEnvelope(ghost w: WorkerId, m: MessageId, ghost d: nat)
      requires Valid() && w in workers && workers[w] == Received(m, d) && m in broker && broker[m].command.None?
      modifies this`workers, repo`deadLetters
      ensures Valid() && Sys() == Apply(old(Sys()), Work(w, Reject)) && w in workers && workers[w] == TermDue(m, d)
      ensures repo.deadLetters == old(repo.deadLetters) + [DeadLetter(None, false, m)]
    {
      repo.RecordWorkDeadLetter(None, m);
      workers := workers[w := TermDue(m, d)];
    }

    /** claim_work_job: the token, or nothing. */
    method TryClaim(ghost w: WorkerId, m: MessageId, ghost d: nat, c: Command) returns (lease: Option<Token>, ghost token: Token)
      requires Valid() && Stands(w, Received(m, d), c)
      modifies this`nextToken, this`workers, repo
      ensures Valid() && Sys() == Apply(old(Sys()), Work(w, ClaimJob(token)))
      ensures Stands(w, if lease.Some? then Working(m, d, lease.value) else Refused(m, d), c)
      ensures lease.None? ==> repo.jobs == old(repo.jobs) && !Claimable(repo.State(), c.jobId, now)
      ensures lease.Some? ==> lease.value == token
    {
      var candidate := nextToken;
      token := candidate;
      var claimed := repo.ClaimWorkJob(c.jobId, candidate, now);
      nextToken := nextToken + 1;
      lease := if claimed then Some(candidate) else None;
      workers := workers[w := if claimed then Working(m, d, candidate) else Refused(m, d)];
    }

    /** What the worker does about a job it could not claim; false means to wait and try again. */
    method LookAtJob(ghost w: WorkerId, m: MessageId, ghost d: nat, c: Command) returns (due: Option<bool>)
      requires Valid() && Stands(w, Refused(m, d), c)
      modifies this`workers, repo`deadLetters
      ensures Valid() && Sys() == Apply(old(Sys()), Work(w, Look))
      ensures due == Some(true) ==> Stands(w, AckDue(m, d, None), c)
      ensures due == Some(false) ==> Stands(w, TermDue(m, d), c) && Mismatched(c) && HasLetter(repo.deadLetters, m)
      ensures due == Some(true) ==> Finished(c)
      ensures due.None? ==> Stands(w, Received(m, d), c) && Waits(c) && repo.jobs == old(repo.jobs)
    {
      if c.jobId !in repo.jobs || repo.jobs[c.jobId].kind != c.kind {
        repo.RecordWorkDeadLetter(Some(c.jobId), m);
        assert repo.deadLetters[|repo.deadLetters| - 1].source == m;
        workers := workers[w := TermDue(m, d)];
        return Some(false);
      }
      if repo.jobs[c.jobId].status == SUCCEEDED || repo.jobs[c.jobId].status == FAILED {
        workers := workers[w := AckDue(m, d, None)];
        return Some(true);
      }
      workers := workers[w := Received(m, d)];
      return None;
    }

    /** Sleeps for what is left of the delay or of the lease, at most 30 seconds. */
    method Sleep(c: Command)
      requires Valid() && c.jobId in repo.jobs
      modifies this`now
      ensures Valid() && now > old(now) && Sys() == Apply(old(Sys()), Tick(now - old(now)))
    {
      var job := repo.jobs[c.jobId];
      var wait :=
        if job.status == QUEUED then job.availableAt - now
        else if job.leaseExpiresAt.Some? then job.leaseExpiresAt.value - now else 0;
      now := now + if wait < 1 then 1 else if wait > 30 then 30 else wait;
    }

    method Settle(ghost w: WorkerId, m: MessageId, how: Settlement)
      requires Valid() && w in workers && m in broker && how != Unsettled
      requires workers[w].message == m
      requires if how == Acked then workers[w].AckDue? || workers[w].LastAckDue? else workers[w].TermDue?
      modifies this`broker, this`workers
      ensures Valid() && w !in workers
      ensures Sys() == Apply(old(Sys()), Work(w, if how == Acked then Ack else Term))
      ensures broker == old(broker)[m := FirstSettled(old(broker)[m], how)]
    {
      if broker[m].settlement == Unsettled {
        broker := broker[m := broker[m].(settlement := how)];
      }
      workers := workers - {w};
    }

    /** An exception inside the guarded block. */
    method RaiseError(ghost w: WorkerId, ghost m: MessageId, ghost d: nat, c: Command) returns (ghost lease: Option<Token>)
      requires Valid() && w in workers && Stands(w, workers[w], c) && workers[w].message == m && workers[w].delivery == d
      requires workers[w].Received? || workers[w].Refused? || workers[w].Working? || workers[w].AckDue? || workers[w].TermDue?
      modifies this`workers
      ensures Valid() && Sys() == Apply(old(Sys()), Work(w, Raise)) && Stands(w, Failing(m, d, lease), c)
      ensures lease == match old(workers[w])
        case Working(_, _, token) => Some(token)
        case AckDue(_, _, held) => held
        case _ => None
    {
      lease := match workers[w]
        case Working(_, _, token) => Some(token)
        case AckDue(_, _, held) => held
        case _ => None;
      workers := workers[w := Failing(m, d, lease)];
    }

    /** A worker that stops without settling its message. */
    method Leave(ghost w: WorkerId, ghost act: Act)
      requires Valid() && w in workers
      requires act == Crash || (act == Nak && workers[w].NakDue?)
      modifies this`workers
      ensures Valid() && w !in workers && Sys() == Apply(old(Sys()), Work(w, act))
    {
      workers := workers - {w};
    }

    /** The message goes back to the broker for a later delivery. */
    method GiveBack(ghost w: WorkerId) returns (ghost steps: seq<Step>)
      requires Valid() && w in workers && workers[w].NakDue?
      modifies this`workers
      ensures Valid() && w !in workers && Sys() == Run(old(Sys()), steps) && OnlyBy(steps, w)
    {
      RunSingle(Sys(), Work(w, Nak));
      Leave(w, Nak);
      return [Work(w, Nak)];
    }

    /** The exception handler after a claim: fail the job on the last delivery, else retry it. */
    method RecordFailure(ghost w: WorkerId, m: MessageId, d: nat, c: Command, lease: Option<Token>) returns (held: bool)
      requires Valid() && Stands(w, Failing(m, d, lease), c)
      modifies this`workers, repo`jobs, repo`deadLetters
      ensures Valid() && Sys() == Apply(old(Sys()), Work(w, Recover))
      ensures held <==> w in workers
      ensures held ==> Stands(w, if lease.Some? && d >= MAX_DELIVERIES then LastAckDue(m, d) else NakDue(m, d), c)
      ensures held && lease.Some? && d >= MAX_DELIVERIES ==> Finished(c)
    {
      held := true;
      if lease.None? {
        workers := workers[w := NakDue(m, d)];
      } else if d >= MAX_DELIVERIES {
        held := repo.FailWorkJob(c.jobId, lease.value, m);
        workers := if held then workers[w := LastAckDue(m, d)] else workers - {w};
      } else {
        held := repo.RetryWorkJob(c.jobId, lease.value, RetryDelay(d), now);
        workers := if held then workers[w := NakDue(m, d)] else workers - {w};
      }
    }

    method CompleteWork(ghost w: WorkerId, m: MessageId, ghost d: nat, c: Command, token: Token) returns (held: bool)
      requires Valid() && Stands(w, Working(m, d, token), c)
      modifies this`workers, repo`jobs
      ensures Valid() && Sys() == Apply(old(Sys()), Work(w, Finish))
      ensures Stands(w, if held then AckDue(m, d, Some(token)) else Failing(m, d, Some(token)), c)
      ensures held ==> Finished(c)
    {
      held := repo.CompleteJob(c.jobId, token);
      workers := workers[w := if held then AckDue(m, d, Some(token)) else Failing(m, d, Some(token))];
    }

    method BeatOnce(ghost w: WorkerId, m: MessageId, ghost d: nat, c: Command, token: Token) returns (held: bool)
      requires Valid() && Stands(w, Working(m, d, token), c)
      modifies repo`jobs
      ensures Valid() && Sys() == Apply(old(Sys()), Work(w, Beat)) && Stands(w, Working(m, d, token), c)
    {
      held := repo.HeartbeatWorkJob(c.jobId, token, now);
    }

    // ------------------------------------------------ the handler

    /** An envelope that does not parse: a dead letter, then the end of the message. No job
        is touched, and the message is terminated only behind its dead letter. */
    method HandleGarbage(ghost w: WorkerId, m: MessageId, ghost d: nat) returns (ghost steps: seq<Step>)
      requires Valid() && w in workers && workers[w] == Received(m, d) && m in broker && broker[m].command.None?
      modifies this`broker, this`workers, repo`deadLetters
      ensures Valid() && w !in workers && Sys() == Run(old(Sys()), steps) && OnlyBy(steps, w)
      ensures repo.deadLetters == old(repo.deadLetters) || repo.deadLetters == old(repo.deadLetters) + [DeadLetter(None, false, m)]
      ensures broker == old(broker) ||
              (broker == old(broker)[m := FirstSettled(old(broker)[m], Termed)] &&
               repo.deadLetters == old(repo.deadLetters) + [DeadLetter(None, false, m)])
    {
      ghost var start := Sys();
      var raises: bool := *;
      if raises {
        RunSingle(start, Work(w, Crash));
        Leave(w, Crash);
        return [Work(w, Crash)];
      }
      RejectEnvelope(w, m, d);
      RunSingle(start, Work(w, Reject));
      ghost var rest := Conclude(w, m, Termed);
      RunAppend(start, [Work(w, Reject)], rest);
      return [Work(w, Reject)] + rest;
    }

    /** The last call for a message; if it raises, the message stays as it is. */
    method Conclude(ghost w: WorkerId, m: MessageId, how: Settlement) returns (ghost steps: seq<Step>)
      requires Valid() && w in workers && m in broker && how != Unsettled && workers[w].message == m
      requires if how == Acked then workers[w].AckDue? || workers[w].LastAckDue? else workers[w].TermDue?
      modifies this`broker, this`workers
      ensures Valid() && w !in workers && Sys() == Run(old(Sys()), steps) && OnlyBy(steps, w)
      ensures broker == old(broker) || broker == old(broker)[m := FirstSettled(old(broker)[m], how)]
    {
      ghost var start := Sys();
      var raises: bool := *;
      if raises {
        RunSingle(start, Work(w, Crash));
        Leave(w, Crash);
        return [Work(w, Crash)];
      }
      ghost var act := if how == Acked then Ack else Term;
      RunSingle(start, Work(w, act));
      Settle(w, m, how);
      return [Work(w, act)];
    }

    /** The exception handler around everything after the envelope. */
    method HandleError(ghost w: WorkerId, m: MessageId, d: nat, c: Command, lease: Option<Token>) returns (ghost steps: seq<Step>)
      requires Valid() && Stands(w, Failing(m, d, lease), c) && AckedIsFinished(m, c)
      modifies this`broker, this`workers, repo
      ensures Valid() && w !in workers && Sys() == Run(old(Sys()), steps) && OnlyBy(steps, w) && AckedIsFinished(m, c)
      ensures SettledRightly(m, c, old(broker)[m].settlement) && broker == old(broker)[m := broker[m]]
    {
      ghost var start := Sys();
      var raises: bool := *;
      if raises {
        RunSingle(start, Work(w, Crash));
        Leave(w, Crash);
        return [Work(w, Crash)];
      }
      var held := RecordFailure(w, m, d, c, lease);
      RunSingle(start, Work(w, Recover));
      steps := [Work(w, Recover)];
      if held {
        if lease.Some? && d >= MAX_DELIVERIES {
          ghost var rest := Conclude(w, m, Acked);
          RunAppend(start, steps, rest);
          steps := steps + rest;
        } else {
          ghost var rest := GiveBack(w);
          RunAppend(start, steps, rest);
          steps := steps + rest;
        }
      }
    }

    /** What follows a refused claim. */
    method AfterRefusal(ghost w: WorkerId, m: MessageId, ghost d: nat, c: Command) returns (outcome: Round, ghost steps: seq<Step>)
      requires Valid() && Stands(w, Refused(m, d), c) && Registered(c.kind) && AckedIsFinished(m, c)
      requires !Claimable(repo.State(), c.jobId, now)
      modifies this`now, this`workers, repo
      ensures Valid() && Sys() == Run(old(Sys()), steps) && OnlyBy(steps, w) && AckedIsFinished(m, c)
      ensures Stands(w, After(outcome, m, d), c) && !outcome.Granted?
      ensures outcome == AckNow ==> Finished(c)
      ensures outcome == TermNow ==> Mismatched(c) && HasLetter(repo.deadLetters, m)
      ensures outcome == Again ==>
        WaitingTime(repo.jobs, c.jobId, now) < old(WaitingTime(repo.jobs, c.jobId, now))
    {
      ghost var start := Sys();
      var raises: bool := *;
      if raises {
        RunSingle(start, Work(w, Raise));
        ghost var none := RaiseError(w, m, d, c);
        return Broken, [Work(w, Raise)];
      }
      RunSingle(start, Work(w, Look));
      var due := LookAtJob(w, m, d, c);
      if due.Some? {
        return if due.value then AckNow else TermNow, [Work(w, Look)];
      }
      ghost var before := now;
      ghost var looked := Sys();
      Sleep(c);
      WaitingEnds(repo.State(), c.jobId, before, now);
      RunSingle(looked, Tick(now - before));
      RunAppend(start, [Work(w, Look)], [Tick(now - before)]);
      return Again, [Work(w, Look)] + [Tick(now - before)];
    }

    /** One round of the claim loop: a claim, and a look at the job if it was refused. */
    method ClaimRound(ghost w: WorkerId, m: MessageId, ghost d: nat, c: Command) returns (outcome: Round, ghost steps: seq<Step>)
      requires Valid() && Stands(w, Received(m, d), c) && Registered(c.kind) && AckedIsFinished(m, c)
      modifies this`now, this`nextToken, this`workers, repo
      ensures Valid() && Sys() == Run(old(Sys()), steps) && OnlyBy(steps, w) && AckedIsFinished(m, c)
      ensures Stands(w, After(outcome, m, d), c)
      ensures outcome == AckNow ==> Finished(c)
      ensures outcome == TermNow ==> Mismatched(c) && HasLetter(repo.deadLetters, m)
      ensures outcome == Again ==>
        WaitingTime(repo.jobs, c.jobId, now) < old(WaitingTime(repo.jobs, c.jobId, now))
    {
      ghost var start := Sys();
      var raises: bool := *;
      if raises {
        RunSingle(start, Work(w, Raise));
        ghost var none := RaiseError(w, m, d, c);
        return Broken, [Work(w, Raise)];
      }
      var lease, token := TryClaim(w, m, d, c);
      RunSingle(start, Work(w, ClaimJob(token)));
      steps := [Work(w, ClaimJob(token))];
      if lease.Some? {
        return Granted(lease.value), steps;
      }
      ghost var rest: seq<Step>;
      outcome, rest := AfterRefusal(w, m, d, c);
      RunAppend(start, steps, rest);
      steps := steps + rest;
    }

    /** The claim loop; left to itself it ends. */
    method ClaimLoop(ghost w: WorkerId, m: MessageId, ghost d: nat, c: Command) returns (outcome: Round, ghost steps: seq<Step>)
      requires Valid() && Stands(w, Received(m, d), c) && Registered(c.kind) && AckedIsFinished(m, c)
      modifies this`now, this`nextToken, this`workers, repo
      ensures Valid() && Sys() == Run(old(Sys()), steps) && OnlyBy(steps, w) && AckedIsFinished(m, c)
      ensures outcome != Again && Stands(w, After(outcome, m, d), c)
      ensures outcome == AckNow ==> Finished(c)
      ensures outcome == TermNow ==> Mismatched(c) && HasLetter(repo.deadLetters, m)
    {
      ghost var start := Sys();
      outcome, steps := ClaimRound(w, m, d, c);
      while outcome == Again
        invariant Valid() && Sys() == Run(start, steps) && OnlyBy(steps, w) && AckedIsFinished(m, c)
        invariant Stands(w, After(outcome, m, d), c)
        invariant outcome == AckNow ==> Finished(c)
        invariant outcome == TermNow ==> Mismatched(c) && HasLetter(repo.deadLetters, m)
        decreases outcome == Again, WaitingTime(repo.jobs, c.jobId, now)
      {
        ghost var more: seq<Step>;
        outcome, more := ClaimRound(w, m, d, c);
        RunAppend(start, steps, more);
        steps := steps + more;
      }
    }

    /** Heartbeats while the handler runs; whether one still found its lease is ignored. */
    method Heartbeats(ghost w: WorkerId, m: MessageId, ghost d: nat, c: Command, token: Token, beats: nat) returns (ghost steps: seq<Step>)
      requires Valid() && Stands(w, Working(m, d, token), c) && AckedIsFinished(m, c)
      modifies repo`jobs
      ensures Valid() && Sys() == Run(old(Sys()), steps) && OnlyBy(steps, w)
      ensures Stands(w, Working(m, d, token), c) && AckedIsFinished(m, c)
    {
      ghost var start := Sys();
      steps := [];
      for i := 0 to beats
        invariant Valid() && Sys() == Run(start, steps) && OnlyBy(steps, w)
        invariant Stands(w, Working(m, d, token), c) && AckedIsFinished(m, c)
      {
        ghost var here := Sys();
        RunSingle(here, Work(w, Beat));
        var held := BeatOnce(w, m, d, c, token);
        RunAppend(start, steps, [Work(w, Beat)]);
        steps := steps + [Work(w, Beat)];
      }
    }

    /** The job itself: heartbeats while the handler runs, then completion. */
    method DoWork(ghost w: WorkerId, m: MessageId, ghost d: nat, c: Command, token: Token) returns (ok: bool, ghost steps: seq<Step>)
      requires Valid() && Stands(w, Working(m, d, token), c) && AckedIsFinished(m, c)
      modifies this`workers, repo
      ensures Valid() && Sys() == Run(old(Sys()), steps) && OnlyBy(steps, w)
      ensures Stands(w, if ok then AckDue(m, d, Some(token)) else Failing(m, d, Some(token)), c)
      ensures ok ==> Finished(c)
      ensures AckedIsFinished(m, c)
    {
      ghost var start := Sys();
      var beats: nat :| 0 <= beats;
      steps := Heartbeats(w, m, d, c, token, beats);
      ghost var here := Sys();
      var raises: bool := *;
      if raises {
        RunSingle(here, Work(w, Raise));
        RunAppend(start, steps, [Work(w, Raise)]);
        ghost var lease := RaiseError(w, m, d, c);
        return false, steps + [Work(w, Raise)];
      }
      RunSingle(here, Work(w, Finish));
      ok := CompleteWork(w, m, d, c, token);
      RunAppend(start, steps, [Work(w, Finish)]);
      steps := steps + [Work(w, Finish)];
    }

    /** The acknowledgement inside the guarded block: if it raises, the handler below runs
        with whatever lease the worker believes it has. */
    method AckOrRecover(ghost w: WorkerId, m: MessageId, d: nat, c: Command, lease: Option<Token>) returns (ghost steps: seq<Step>)
      requires Valid() && Stands(w, AckDue(m, d, lease), c) && Finished(c)
      modifies this`broker, this`workers, repo
      ensures Valid() && w !in workers && Sys() == Run(old(Sys()), steps) && OnlyBy(steps, w) && AckedIsFinished(m, c)
      ensures SettledRightly(m, c, old(broker)[m].settlement) && broker == old(broker)[m := broker[m]]
    {
      ghost var start := Sys();
      var raises: bool := *;
      if !raises {
        RunSingle(start, Work(w, Ack));
        Settle(w, m, Acked);
        return [Work(w, Ack)];
      }
      RunSingle(start, Work(w, Raise));
      ghost var believed := RaiseError(w, m, d, c);
      ghost var rest := HandleError(w, m, d, c, lease);
      RunAppend(start, [Work(w, Raise)], rest);
      return [Work(w, Raise)] + rest;
    }

    /** The same for a termination. */
    method TermOrRecover(ghost w: WorkerId, m: MessageId, d: nat, c: Command) returns (ghost steps: seq<Step>)
      requires Valid() && Stands(w, TermDue(m, d), c) && AckedIsFinished(m, c)
      requires Mismatched(c) && HasLetter(repo.deadLetters, m)
      modifies this`broker, this`workers, repo
      ensures Valid() && w !in workers && Sys() == Run(old(Sys()), steps) && OnlyBy(steps, w) && AckedIsFinished(m, c)
      ensures SettledRightly(m, c, old(broker)[m].settlement) && broker == old(broker)[m := broker[m]]
    {
      ghost var start := Sys();
      var raises: bool := *;
      if !raises {
        RunSingle(start, Work(w, Term));
        Settle(w, m, Termed);
        return [Work(w, Term)];
      }
      RunSingle(start, Work(w, Raise));
      ghost var none := RaiseError(w, m, d, c);
      ghost var rest := HandleError(w, m, d, c, None);
      RunAppend(start, [Work(w, Raise)], rest);
      return [Work(w, Raise)] + rest;
    }

    /** One delivery of a command. The state is that of a run of the worker's own steps and
        the passing of time. The message is acknowledged only if the job is finished and
        terminated only if the job does not match, behind a dead letter; no other message
        is touched. */
    method HandleCommand(ghost w: WorkerId, m: MessageId, d: nat, c: Command) returns (ghost steps: seq<Step>)
      requires Valid() && Stands(w, Received(m, d), c) && Registered(c.kind) && AckedIsFinished(m, c)
      modifies this`now, this`broker, this`nextToken, this`workers, repo
      ensures Valid() && w !in workers && Sys() == Run(old(Sys()), steps) && OnlyBy(steps, w) && AckedIsFinished(m, c)
      ensures SettledRightly(m, c, old(broker)[m].settlement) && broker == old(broker)[m := broker[m]]
    {
      ghost var start := Sys();
      var outcome;
      outcome, steps := ClaimLoop(w, m, d, c);
      ghost var rest: seq<Step>;
      match outcome {
        case AckNow => rest := AckOrRecover(w, m, d, c, None);
        case TermNow => rest := TermOrRecover(w, m, d, c);
        case Broken => rest := HandleError(w, m, d, c, None);
        case Granted(token) =>
          ghost var granted := Sys();
          var ok;
          ghost var first, second: seq<Step>;
          ok, first := DoWork(w, m, d, c, token);
          if ok {
            second := AckOrRecover(w, m, d, c, Some(token));
          } else {
            second := HandleError(w, m, d, c, Some(token));
          }
          RunAppend(granted, first, second);
          rest := first + second;
      }
      RunAppend(start, steps, rest);
      steps := steps + rest;
    }
  }

  /** Only the first settlement of a message counts. */
  ghost function FirstSettled(message: Message, how: Settlement): Message {
    if message.settlement == Unsettled then message.(settlement := how) else message
  }

  /** How a round of the claim loop ends. */
  datatype Round = Again | AckNow | TermNow | Broken | Granted(token: Token)

  ghost function After(outcome: Round, m: MessageId, d: nat): Phase {
    match outcome
    case Again => Received(m, d)
    case AckNow => AckDue(m, d, None)
    case TermNow => TermDue(m, d)
    case Broken => Failing(m, d, None)
    case Granted(token) => Working(m, d, token)
  }

  /** How long a job that cannot be claimed stays so if nobody touches it. */
  ghost function WaitingTime(jobs: map<JobId, Job>, j: JobId, now: int): nat {
    if j !in jobs then 0
    else
      var delay := if jobs[j].availableAt > now then jobs[j].availableAt - now else 0;
      var lease :=
        if jobs[j].status == RUNNING && jobs[j].leaseExpiresAt.Some? && jobs[j].leaseExpiresAt.value >= now
        then jobs[j].leaseExpiresAt.value - now + 1 else 0;
      delay + lease
  }

  lemma WaitingEnds(db: Db, j: JobId, before: int, after: int)
    requires j in db.jobs && Registered(db.jobs[j].kind) && !Terminal(db.jobs[j].status) && !Claimable(db, j, before)
    requires db.jobs[j].status == RUNNING ==> db.jobs[j].leaseExpiresAt.Some?
    requires before < after
    ensures WaitingTime(db.jobs, j, after) < WaitingTime(db.jobs, j, before)
  {
  }

  lemma RunSingle(s: System, step: Step)
    ensures Run(s, [step]) == Apply(s, step)
  {
    assert [step][1..] == [];
    assert Run(Apply(s, step), []) == Apply(s, step);
  }
}
