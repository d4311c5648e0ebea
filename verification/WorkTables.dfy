/** The tables of the Activity work queue and its transactions: jobs with a lease, the
    transactional outbox, work dead letters and the redrive audit. */
module WorkTables {
  import opened Wrappers

  /** Job ids and lease tokens are UUIDs; a fresh one is a number not used before. */
  type JobId = nat
  type Token = nat
  type MessageId = nat

  datatype Kind =
    | QSO_INGESTION
    | ADIF_IMPORT
    | AWARD_RECALCULATE
    | AWARD_EVALUATION
    | PDF_RENDER
    | STATISTICS_REBUILD
    | Unregistered(name: string)

  /** Whether WORK_TYPE_BY_KIND has the kind. */
  predicate Registered(kind: Kind) {
    !kind.Unregistered?
  }

  datatype Status = QUEUED | RUNNING | SUCCEEDED | FAILED

  datatype Job = Job(
    kind: Kind,
    status: Status,
    attempts: nat,
    availableAt: int,
    leaseExpiresAt: Option<int>,
    leaseToken: Option<Token>)

  /** The first command of a job reuses the job's id; each redrive makes a fresh one,
      named here after its audit row. */
  datatype EventId = ForJob(jobId: JobId) | Redrive(index: nat)

  datatype OutboxState = Pending | Published | DeadLettered

  datatype OutboxRow = OutboxRow(jobId: JobId, kind: Kind, state: OutboxState)

  /** `source` records which message the row was written for; the row itself has no such column. */
  datatype DeadLetter = DeadLetter(workId: Option<JobId>, resolved: bool, source: MessageId)

  datatype Audit = Audit(jobId: JobId, eventId: EventId)

  datatype Db = Db(
    jobs: map<JobId, Job>,
    keys: map<string, JobId>,
    outbox: map<EventId, OutboxRow>,
    deadLetters: seq<DeadLetter>,
    audits: seq<Audit>,
    issued: map<Token, JobId>)  // history: every lease token ever handed out

  const EMPTY := Db(map[], map[], map[], [], [], map[])

  const LEASE_SECONDS := 120
  const MAX_DELIVERIES: nat := 8

  predicate Terminal(status: Status) {
    status == SUCCEEDED || status == FAILED
  }

  function WithJob(db: Db, j: JobId, job: Job): Db {
    db.(jobs := db.jobs[j := job])
  }

  // ---------------------------------------------------------------- transactions

  /** INSERT INTO outbox_event ... ON CONFLICT (event_id) DO NOTHING. */
  function InsertCommand(outbox: map<EventId, OutboxRow>, e: EventId, j: JobId, kind: Kind): map<EventId, OutboxRow> {
    if e in outbox then outbox else outbox[e := OutboxRow(j, kind, Pending)]
  }

  /** `_job`: insert or reuse the row of the idempotency key, and its command. */
  function Enqueue(db: Db, newId: JobId, kind: Kind, key: Option<string>, now: int): (Db, JobId) {
    var reused := key.Some? && key.value in db.keys;
    var id := if reused then db.keys[key.value] else newId;
    var jobs := if reused then db.jobs else db.jobs[newId := Job(kind, QUEUED, 0, now, None, None)];
    var keys := if key.Some? then db.keys[key.value := id] else db.keys;
    var outbox := if Registered(kind) then InsertCommand(db.outbox, ForJob(id), id, kind) else db.outbox;
    (db.(jobs := jobs, keys := keys, outbox := outbox), id)
  }

  predicate Claimable(db: Db, j: JobId, now: int) {
    && j in db.jobs
    && Registered(db.jobs[j].kind)
    && db.jobs[j].availableAt <= now
    && (db.jobs[j].status == QUEUED ||
        (db.jobs[j].status == RUNNING && db.jobs[j].leaseExpiresAt.Some? && db.jobs[j].leaseExpiresAt.value < now))
  }

  function Claim(db: Db, j: JobId, token: Token, now: int): (Db, bool) {
    if !Claimable(db, j, now) then (db, false)
    else
      var job := db.jobs[j].(
        status := RUNNING,
        attempts := db.jobs[j].attempts + 1,
        leaseExpiresAt := Some(now + LEASE_SECONDS),
        leaseToken := Some(token));
      (WithJob(db, j, job).(issued := db.issued[token := j]), true)
  }

  /** The guard of every later transaction of a lease holder. */
  predicate Holds(db: Db, j: JobId, token: Token) {
    j in db.jobs && db.jobs[j].status == RUNNING && db.jobs[j].leaseToken == Some(token)
  }

  function Heartbeat(db: Db, j: JobId, token: Token, now: int): (Db, bool) {
    if Holds(db, j, token)
    then (WithJob(db, j, db.jobs[j].(leaseExpiresAt := Some(now + LEASE_SECONDS))), true)
    else (db, false)
  }

  function Release(job: Job, status: Status): Job {
    job.(status := status, leaseExpiresAt := None, leaseToken := None)
  }

  function Retry(db: Db, j: JobId, token: Token, delay: nat, now: int): (Db, bool) {
    if Holds(db, j, token)
    then (WithJob(db, j, Release(db.jobs[j], QUEUED).(availableAt := now + delay)), true)
    else (db, false)
  }

  function Complete(db: Db, j: JobId, token: Token): (Db, bool) {
    if Holds(db, j, token) then (WithJob(db, j, Release(db.jobs[j], SUCCEEDED)), true) else (db, false)
  }

  function RecordDeadLetter(db: Db, workId: Option<JobId>, source: MessageId): Db {
    db.(deadLetters := db.deadLetters + [DeadLetter(workId, false, source)])
  }

  function Fail(db: Db, j: JobId, token: Token, source: MessageId): (Db, bool) {
    if Holds(db, j, token)
    then (RecordDeadLetter(WithJob(db, j, Release(db.jobs[j], FAILED)), Some(j), source), true)
    else (db, false)
  }

  function Resolve(letters: seq<DeadLetter>, j: JobId): (r: seq<DeadLetter>)
    ensures |r| == |letters|
    ensures forall i :: 0 <= i < |letters| ==>
      r[i] == letters[i].(resolved := letters[i].resolved || letters[i].workId == Some(j))
  {
    seq(|letters|, i requires 0 <= i < |letters| =>
      letters[i].(resolved := letters[i].resolved || letters[i].workId == Some(j)))
  }

  datatype RedriveError = BadAudit | MissingJob | NotRedrivable | UnregisteredKind

  function TrimLeft(s: string): string {
    if s != "" && IsSpace(s[0]) then TrimLeft(s[1..]) else s
  }

  function TrimRight(s: string): string {
    if s != "" && IsSpace(s[|s| - 1]) then TrimRight(s[..|s| - 1]) else s
  }

  /** str.strip() */
  function Trimmed(s: string): string {
    TrimRight(TrimLeft(s))
  }

  ghost predicate AllSpace(s: string) {
    forall c | c in s :: IsSpace(c)
  }

  ghost predicate Tight(s: string) {
    s != "" ==> !IsSpace(s[0]) && !IsSpace(s[|s| - 1])
  }

  lemma {:induction false} TrimLeftCuts(s: string) returns (cut: string)
    ensures s == cut + TrimLeft(s) && AllSpace(cut)
    ensures TrimLeft(s) != "" ==> !IsSpace(TrimLeft(s)[0])
    decreases |s|
  {
    cut := "";
    if s != "" && IsSpace(s[0]) {
      var more := TrimLeftCuts(s[1..]);
      cut := [s[0]] + more;
      assert s == [s[0]] + s[1..];
    }
  }

  lemma {:induction false} TrimRightCuts(s: string) returns (cut: string)
    ensures s == TrimRight(s) + cut && AllSpace(cut)
    ensures TrimRight(s) != "" ==> !IsSpace(TrimRight(s)[|TrimRight(s)| - 1]) && TrimRight(s)[0] == s[0]
    decreases |s|
  {
    cut := "";
    if s != "" && IsSpace(s[|s| - 1]) {
      var more := TrimRightCuts(s[..|s| - 1]);
      cut := more + [s[|s| - 1]];
      assert s == s[..|s| - 1] + [s[|s| - 1]];
    }
  }

  /** What is left is the text without the white space at both ends, and nothing else. */
  lemma TrimmedCuts(s: string) returns (front: string, back: string)
    ensures s == front + Trimmed(s) + back && AllSpace(front) && AllSpace(back) && Tight(Trimmed(s))
  {
    front := TrimLeftCuts(s);
    back := TrimRightCuts(TrimLeft(s));
  }

  predicate AuditAccepts(actor: string, reason: string) {
    1 <= |Trimmed(actor)| <= 120 && 1 <= |Trimmed(reason)| <= 500
  }

  function RedriveJob(db: Db, j: JobId, actor: string, reason: string, now: int): Result<Db, RedriveError> {
    if !AuditAccepts(actor, reason) then Failure(BadAudit)
    else if j !in db.jobs then Failure(MissingJob)
    else if db.jobs[j].status != FAILED && db.jobs[j].status != QUEUED then Failure(NotRedrivable)
    else if !Registered(db.jobs[j].kind) then Failure(UnregisteredKind)
    else
      var e := Redrive(|db.audits|);
      var job := if db.jobs[j].status == FAILED then Release(db.jobs[j], QUEUED).(availableAt := now) else db.jobs[j];
      Success(db.(
        jobs := db.jobs[j := job],
        outbox := db.outbox[e := OutboxRow(j, db.jobs[j].kind, Pending)],
        deadLetters := Resolve(db.deadLetters, j),
        audits := db.audits + [Audit(j, e)]))
  }

  /** The queued jobs of a registered kind. */
  function QueuedWork(jobs: map<JobId, Job>): set<JobId> {
    set j | j in jobs && jobs[j].status == QUEUED && Registered(jobs[j].kind)
  }

  function FirstCommands(ids: set<JobId>): set<EventId> {
    set j | j in ids :: ForJob(j)
  }

  /** The outbox after inserting, for each of `ids`, the command under its own id if absent. */
  function Repaired(jobs: map<JobId, Job>, outbox: map<EventId, OutboxRow>, ids: set<JobId>): map<EventId, OutboxRow>
    requires ids <= jobs.Keys
  {
    outbox + map e | e in FirstCommands(ids) && e !in outbox :: OutboxRow(e.jobId, jobs[e.jobId].kind, Pending)
  }

  function Missing(outbox: map<EventId, OutboxRow>, ids: set<JobId>): set<JobId> {
    set j | j in ids && ForJob(j) !in outbox
  }

  function Reconcile(db: Db): Db {
    db.(outbox := Repaired(db.jobs, db.outbox, QueuedWork(db.jobs)))
  }

  // ---------------------------------------------------------------- vocabulary of the properties

  /** The newest command of a job. */
  function Latest(audits: seq<Audit>, j: JobId): EventId {
    if audits == [] then ForJob(j)
    else if audits[|audits| - 1].jobId == j then audits[|audits| - 1].eventId
    else Latest(audits[..|audits| - 1], j)
  }

  function Unresolved(letters: seq<DeadLetter>, j: JobId): set<int> {
    set i | 0 <= i < |letters| && letters[i].workId == Some(j) && !letters[i].resolved
  }

  function ClaimsOf(issued: map<Token, JobId>, j: JobId): set<Token> {
    set t | t in issued && issued[t] == j
  }

  function RedrivesOf(audits: seq<Audit>, j: JobId): set<int> {
    set i | 0 <= i < |audits| && audits[i].jobId == j
  }
}
