/** What a live lease protects: the row of a running job belongs to the holder of its token
    until the lease has run out, and a holder that beats in time never loses it. */
module WorkLeases {
  import opened Wrappers
  import opened WorkTables
  import opened WorkProtocol
  import opened WorkSafety
  import opened WorkRuns

  /** The job runs under the token and its lease has not run out. */
  ghost predicate LiveUnder(s: System, j: JobId, t: Token) {
    && j in s.db.jobs
    && s.db.jobs[j].status == RUNNING
    && s.db.jobs[j].leaseToken == Some(t)
    && s.db.jobs[j].leaseExpiresAt.Some?
    && s.now <= s.db.jobs[j].leaseExpiresAt.value
  }

  ghost predicate ActsUnder(s: System, step: Step, t: Token) {
    step.Work? && step.worker in s.workers && Believed(s.workers[step.worker]) == Some(t)
  }

  lemma ClaimLeavesLive(s: System, w: WorkerId, token: Token, seen: bool, j: JobId, t: Token)
    requires LiveUnder(s, j, t)
    ensures j in ApplyClaim(s, w, token, seen).db.jobs && ApplyClaim(s, w, token, seen).db.jobs[j] == s.db.jobs[j]
  {
  }

  lemma LeaseActLeavesLive(s: System, w: WorkerId, act: Act, j: JobId, t: Token)
    requires LiveUnder(s, j, t) && (act.Beat? || act.Finish?)
    requires w in s.workers ==> Believed(s.workers[w]) != Some(t)
    ensures j in ApplyWork(s, w, act).db.jobs && ApplyWork(s, w, act).db.jobs[j] == s.db.jobs[j]
  {
  }

  lemma RecoverLeavesLive(s: System, w: WorkerId, j: JobId, t: Token)
    requires LiveUnder(s, j, t) && (w in s.workers ==> Believed(s.workers[w]) != Some(t))
    ensures j in ApplyRecover(s, w).db.jobs && ApplyRecover(s, w).db.jobs[j] == s.db.jobs[j]
  {
  }

  lemma OtherActsLeaveRows(s: System, w: WorkerId, act: Act)
    requires !act.ClaimJob? && !act.ClaimUnseen? && !act.Beat? && !act.Finish? && !act.Recover?
    ensures ApplyWork(s, w, act).db.jobs == s.db.jobs
  {
  }

  lemma WorkLeavesLive(s: System, w: WorkerId, act: Act, j: JobId, t: Token)
    requires LiveUnder(s, j, t) && !ActsUnder(s, Work(w, act), t)
    ensures j in ApplyWork(s, w, act).db.jobs && ApplyWork(s, w, act).db.jobs[j] == s.db.jobs[j]
  {
    match act
    case ClaimJob(token) => ClaimLeavesLive(s, w, token, true, j, t);
    case ClaimUnseen(token) => ClaimLeavesLive(s, w, token, false, j, t);
    case Beat => LeaseActLeavesLive(s, w, act, j, t);
    case Finish => LeaseActLeavesLive(s, w, act, j, t);
    case Recover => RecoverLeavesLive(s, w, j, t);
    case _ => OtherActsLeaveRows(s, w, act);
  }

  lemma QueueLeavesRunning(s: System, op: QueueOp, j: JobId)
    requires TablesFit(s.db) && j in s.db.jobs && s.db.jobs[j].status == RUNNING
    ensures j in ApplyQueue(s.db, op, s.now).jobs && ApplyQueue(s.db, op, s.now).jobs[j] == s.db.jobs[j]
  {
  }

  /** Nobody but a worker that holds its token touches the row of a job whose lease has
      not run out: no claim, no redrive, no relay, and no worker with another token. */
  lemma LiveLeaseIsKept(s: System, step: Step, j: JobId, t: Token)
    requires Inv(s) && LiveUnder(s, j, t) && !ActsUnder(s, step, t)
    ensures j in Apply(s, step).db.jobs && Apply(s, step).db.jobs[j] == s.db.jobs[j]
  {
    match step
    case Tick(_) =>
    case Queue(op) => QueueLeavesRunning(s, op, j);
    case Transport(move) => EveryTransportEffect(s, move);
    case Work(w, act) => WorkLeavesLive(s, w, act, j, t);
  }

  // ------------------------------------------------ a token has one holder

  ghost predicate TokensApart(s: System) {
    forall v, w | v in s.workers && w in s.workers && v != w ::
      Believed(s.workers[v]).None? || Believed(s.workers[v]) != Believed(s.workers[w])
  }

  /** The worker that moves keeps its token, loses it, or gets one never issued before. */
  ghost predicate BelievesNew(s: System, t: System, w: WorkerId) {
    w in t.workers && Believed(t.workers[w]).Some? ==>
      || (w in s.workers && Believed(t.workers[w]) == Believed(s.workers[w]))
      || Believed(t.workers[w]).value !in s.db.issued
  }

  lemma ClaimBelieves(s: System, w: WorkerId, token: Token, seen: bool)
    ensures BelievesNew(s, ApplyClaim(s, w, token, seen), w)
  {
  }

  lemma RecoverBelieves(s: System, w: WorkerId)
    ensures BelievesNew(s, ApplyRecover(s, w), w)
  {
  }

  lemma RaiseBelieves(s: System, w: WorkerId)
    ensures BelievesNew(s, ApplyRaise(s, w), w)
  {
  }

  lemma AnswerBelieves(s: System, w: WorkerId, act: Act)
    ensures BelievesNew(s, ApplyAnswer(s, w, act), w)
  {
  }

  lemma RestBelieves(s: System, w: WorkerId, act: Act)
    requires act.Reject? || act.Look? || act.Beat? || act.Finish?
    ensures BelievesNew(s, ApplyWork(s, w, act), w)
  {
  }

  lemma WorkBelieves(s: System, w: WorkerId, act: Act)
    ensures BelievesNew(s, ApplyWork(s, w, act), w)
  {
    match act
    case ClaimJob(token) => ClaimBelieves(s, w, token, true);
    case ClaimUnseen(token) => ClaimBelieves(s, w, token, false);
    case Recover => RecoverBelieves(s, w);
    case Raise => RaiseBelieves(s, w);
    case Reject => RestBelieves(s, w, act);
    case Look => RestBelieves(s, w, act);
    case Beat => RestBelieves(s, w, act);
    case Finish => RestBelieves(s, w, act);
    case _ => AnswerBelieves(s, w, act);
  }

  lemma WorkKeepsApart(s: System, t: System, w: WorkerId)
    requires Beliefs(s) && TokensApart(s) && WorkEffect(s, t, w) && BelievesNew(s, t, w)
    ensures TokensApart(t)
  {
    forall x, y | x in t.workers && y in t.workers && x != y && Believed(t.workers[x]).Some?
      ensures Believed(t.workers[x]) != Believed(t.workers[y])
    {
      if x in s.workers {
        assert BeliefFits(s, x);
      }
      if y in s.workers {
        assert BeliefFits(s, y);
      }
    }
  }

  lemma StepKeepsApart(s: System, step: Step)
    requires Inv(s) && TokensApart(s)
    ensures TokensApart(Apply(s, step))
  {
    match step
    case Tick(_) =>
    case Queue(_) =>
    case Transport(move) => EveryTransportEffect(s, move);
    case Work(w, act) =>
      EveryWorkEffect(s, w, act);
      WorkBelieves(s, w, act);
      WorkKeepsApart(s, ApplyWork(s, w, act), w);
  }

  lemma {:induction false} RunKeepsApart(s: System, steps: seq<Step>)
    requires Inv(s) && TokensApart(s)
    ensures TokensApart(Run(s, steps))
    decreases |steps|
  {
    if steps != [] {
      StepKeepsInv(s, steps[0]);
      StepKeepsApart(s, steps[0]);
      RunKeepsApart(Apply(s, steps[0]), steps[1..]);
    }
  }

  /** In every run: no two workers believe in one token. */
  lemma TokensHaveOneHolder(now: int, steps: seq<Step>)
    ensures TokensApart(Run(Init(now), steps))
  {
    InitInv(now);
    RunKeepsApart(Init(now), steps);
  }

  // ------------------------------------------------ a holder that beats in time

  /** The worker works on the job under the token, and the row says so; the lease runs
      120 seconds from `last`. */
  ghost predicate HoldsSince(s: System, w: WorkerId, j: JobId, t: Token, last: int) {
    && HasCommand(s, w) && CommandOf(s, w).jobId == j
    && s.workers[w].Working? && s.workers[w].token == t
    && j in s.db.jobs && s.db.jobs[j].status == RUNNING && s.db.jobs[j].leaseToken == Some(t)
    && s.db.jobs[j].leaseExpiresAt == Some(last + 120)
  }

  /** All that the worker itself does is beat. */
  ghost predicate OnlyBeats(steps: seq<Step>, w: WorkerId) {
    forall step | step in steps :: step.Work? && step.worker == w ==> step.act.Beat?
  }

  /** The clock is never more than 120 seconds past the last beat. */
  ghost predicate BeatsInTime(s: System, steps: seq<Step>, w: WorkerId, last: int)
    decreases |steps|
  {
    && s.now <= last + 120
    && (steps != [] ==> BeatsInTime(Apply(s, steps[0]), steps[1..], w, LastBeat(s, steps[0], w, last)))
  }

  ghost function LastBeat(s: System, step: Step, w: WorkerId, last: int): int {
    if step == Work(w, Beat) then s.now else last
  }

  ghost function LastBeatOf(s: System, steps: seq<Step>, w: WorkerId, last: int): int
    decreases |steps|
  {
    if steps == [] then last else LastBeatOf(Apply(s, steps[0]), steps[1..], w, LastBeat(s, steps[0], w, last))
  }

  lemma OthersLeaveWorker(s: System, step: Step, w: WorkerId)
    requires HasCommand(s, w) && !(step.Work? && step.worker == w)
    ensures HasCommand(Apply(s, step), w) && Apply(s, step).workers[w] == s.workers[w]
    ensures CommandOf(Apply(s, step), w) == CommandOf(s, w)
  {
    match step
    case Tick(_) =>
    case Queue(_) =>
    case Transport(move) => EveryTransportEffect(s, move);
    case Work(v, act) => EveryWorkEffect(s, v, act);
  }

  lemma BeatRenews(s: System, w: WorkerId, j: JobId, t: Token, last: int)
    requires HoldsSince(s, w, j, t, last)
    ensures HoldsSince(ApplyBeat(s, w), w, j, t, s.now)
  {
  }

  lemma StepKeepsHolder(s: System, step: Step, w: WorkerId, j: JobId, t: Token, last: int)
    requires Inv(s) && TokensApart(s) && HoldsSince(s, w, j, t, last) && s.now <= last + 120
    requires step.Work? && step.worker == w ==> step.act.Beat?
    ensures HoldsSince(Apply(s, step), w, j, t, LastBeat(s, step, w, last))
  {
    if step == Work(w, Beat) {
      BeatRenews(s, w, j, t, last);
    } else {
      OthersLeaveWorker(s, step, w);
      LiveLeaseIsKept(s, step, j, t);
    }
  }

  /** A worker that holds a lease and beats at least every 120 seconds holds it through
      everything else that happens, and its completion then succeeds. */
  lemma {:induction false} HolderKeepsLease(s: System, steps: seq<Step>, w: WorkerId, j: JobId, t: Token, last: int)
    requires Inv(s) && TokensApart(s) && HoldsSince(s, w, j, t, last)
    requires OnlyBeats(steps, w) && BeatsInTime(s, steps, w, last)
    ensures HoldsSince(Run(s, steps), w, j, t, LastBeatOf(s, steps, w, last))
    ensures Apply(Run(s, steps), Work(w, Finish)).db.jobs[j].status == SUCCEEDED
    decreases |steps|
  {
    if steps != [] {
      assert steps[0] in steps;
      StepKeepsInv(s, steps[0]);
      StepKeepsApart(s, steps[0]);
      StepKeepsHolder(s, steps[0], w, j, t, last);
      assert forall step | step in steps[1..] :: step in steps;
      HolderKeepsLease(Apply(s, steps[0]), steps[1..], w, j, t, LastBeat(s, steps[0], w, last));
    }
  }

  /** A granted claim starts such a lease. */
  lemma ClaimStartsLease(s: System, w: WorkerId, token: Token)
    requires HasCommand(s, w) && s.workers[w].Received? && token !in s.db.issued
    requires Apply(s, Work(w, ClaimJob(token))).workers[w].Working?
    ensures HoldsSince(Apply(s, Work(w, ClaimJob(token))), w, CommandOf(s, w).jobId, token, s.now)
  {
  }

  /** The bound is exact: one second later any worker with a command of the job takes the
      lease over, whatever the old holder believes. */
  lemma LateHolderLosesLease(s: System, v: WorkerId, w: WorkerId, j: JobId, t: Token, token: Token, last: int)
    requires Inv(s) && HoldsSince(s, w, j, t, last) && s.now > last + 120 && s.db.jobs[j].availableAt <= s.now
    requires v != w && HasCommand(s, v) && s.workers[v].Received? && CommandOf(s, v).jobId == j
    requires token !in s.db.issued && !s.db.jobs[j].kind.Unregistered?
    ensures var u := Apply(s, Work(v, ClaimJob(token)));
      HoldsSince(u, v, j, token, s.now) && Superseded(u.db, t)
  {
    assert BeliefFits(s, w);
    assert Claimable(s.db, j, s.now);
    ClaimStartsLease(s, v, token);
  }

  // ------------------------------------------------ the delay before a retry

  /** The delay doubles from 2 seconds with every delivery, up to 256. */
  lemma {:induction false} RetryDelayDoubles(d: nat)
    ensures RetryDelay(0) == RetryDelay(1) == 2
    ensures 1 <= d < 8 ==> RetryDelay(d + 1) == 2 * RetryDelay(d)
    ensures d >= 8 ==> RetryDelay(d) == 256
  {
    PowerOfEight();
    if 1 <= d < 8 {
      PowerSmall(d + 1);
    }
  }

  lemma PowerOfEight()
    ensures Power(1) == 2 && Power(8) == 256
  {
    assert Power(4) == 16;
    assert Power(8) == 16 * Power(4);
  }

  lemma PowerSmall(n: nat)
    requires 1 <= n <= 8
    ensures Power(n) == 2 * Power(n - 1) <= 256
  {
    PowerGrows(n, 8);
    PowerOfEight();
  }

  lemma {:induction false} PowerGrows(m: nat, n: nat)
    requires m <= n
    ensures Power(m) <= Power(n)
    decreases n
  {
    if m < n {
      PowerGrows(m, n - 1);
    }
  }

  /** A failed delivery before the last makes its job claimable again after that delay. */
  lemma RetriedJobWaits(s: System, w: WorkerId, t: Token)
    requires HasCommand(s, w) && s.workers[w].Failing? && s.workers[w].lease == Some(t) && s.workers[w].delivery < 8
    requires var j := CommandOf(s, w).jobId;
      j in s.db.jobs && s.db.jobs[j].status == RUNNING && s.db.jobs[j].leaseToken == Some(t)
    ensures var j, u := CommandOf(s, w).jobId, Apply(s, Work(w, Recover));
      && u.db.jobs[j].status == QUEUED && u.db.jobs[j].leaseToken.None?
      && u.db.jobs[j].availableAt == s.now + RetryDelay(s.workers[w].delivery)
      && u.workers[w].NakDue?
  {
  }

  /** A failed delivery under a lease is the last if it is at least the eighth: the job
      has failed and its dead letter is written. */
  lemma EighthFailureIsLast(s: System, w: WorkerId, t: Token)
    requires HasCommand(s, w) && s.workers[w].Failing? && s.workers[w].lease == Some(t) && s.workers[w].delivery >= 8
    requires var j := CommandOf(s, w).jobId;
      j in s.db.jobs && s.db.jobs[j].status == RUNNING && s.db.jobs[j].leaseToken == Some(t)
    ensures var j, u := CommandOf(s, w).jobId, Apply(s, Work(w, Recover));
      && u.db.jobs[j].status == FAILED
      && u.db.deadLetters == s.db.deadLetters + [DeadLetter(Some(j), false, s.workers[w].message)]
      && u.workers[w].LastAckDue?
  {
  }

  /** In every run no message is delivered more than eight times, and an unsettled one that
      was delivered less often can be delivered to any idle worker. */
  lemma EightDeliveries(now: int, steps: seq<Step>, m: MessageId, w: WorkerId)
    requires m in Run(Init(now), steps).broker
    ensures var s := Run(Init(now), steps);
      && s.broker[m].delivered <= 8
      && (s.broker[m].settlement == Unsettled && s.broker[m].delivered < 8 && w !in s.workers ==>
            var u := Apply(s, Transport(Deliver(w, m)));
            u.broker[m].delivered == s.broker[m].delivered + 1 && w in u.workers && u.workers[w] == Received(m, s.broker[m].delivered + 1))
  {
    InitInv(now);
    RunKeepsInv(Init(now), steps);
    assert MessageFits(Run(Init(now), steps), m);
  }
}
