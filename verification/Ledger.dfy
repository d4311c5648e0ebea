/** The Activity tables behind the participation statistics, and what every
    statement that touches them does to the rows.

    The ledger (activations and QSOs) is the authority. The subject tables are an
    index over it: one counter row per subject, and two side tables of distinct
    callsigns and entities. Inserts maintain the index row by row; an entity
    cascade recomputes it for some subjects from the ledger.

    A QSO row is keyed by its deduplication key, which the schema declares unique. */
module Ledger {
  import opened Wrappers

  type Id = string

  datatype Category = ACTIVATOR | HUNTER

  datatype SubjectKey = SubjectKey(programme: Id, subject: Id, category: Category)

  /** The columns of an activation that no statement here ever changes. */
  datatype Site = Site(programme: Id, entityId: Id, operatorId: Id)

  datatype ActivationStatus = Open | Closed | ClosedInvalid | Cancelled

  datatype Activation = Activation(
    site: Site,
    startedAt: nat,
    expiresAt: Option<nat>,
    status: ActivationStatus,
    qsoCount: int,
    uniqueCallsigns: nat,
    uniqueEntities: nat)

  datatype QsoStatus = Valid | Corrected | Void

  datatype Qso = Qso(
    activationId: Id,
    programme: Id,
    operatorId: Id,
    hunterId: Option<Id>,
    workedCallsign: string,
    workedEntityId: Option<Id>,
    occurredAt: nat,
    band: Option<string>,
    mode: Option<string>,
    status: QsoStatus)

  /** A contact as a caller submits it, after normalization. */
  datatype Record = Record(
    workedCallsign: string,
    occurredAt: nat,
    band: Option<string>,
    mode: Option<string>,
    hunterId: Option<Id>,
    workedEntityId: Option<Id>,
    deduplicationKey: string)

  datatype Ledger = Ledger(activations: map<Id, Activation>, qsos: map<string, Qso>)

  datatype Aggregate = Aggregate(
    qsoCount: int,
    activationCount: int,
    uniqueCallsigns: int,
    uniqueEntities: int)

  datatype Subjects = Subjects(
    aggregates: map<SubjectKey, Aggregate>,
    callsigns: set<(SubjectKey, string)>,
    entities: set<(SubjectKey, Id)>)

  datatype Tables = Tables(ledger: Ledger, subjects: Subjects)

  datatype Error = MissingActivation | NotOpen | OutsideWindow | DuplicateId

  const EMPTY := Tables(Ledger(map[], map[]), Subjects(map[], {}, {}))

  // ---------------------------------------------------------------- upserts

  /** Arguments of one `_upsert_subject` call. */
  datatype Touch = Touch(
    key: SubjectKey,
    qsoDelta: nat,
    activationDelta: nat,
    callsign: Option<string>,
    entityId: Option<Id>)

  /** The values a side table lists for one subject row. */
  function Section<T(==)>(table: set<(SubjectKey, T)>, k: SubjectKey): set<T> {
    set p | p in table && p.0 == k :: p.1
  }

  function Listed<T(==)>(table: set<(SubjectKey, T)>, k: SubjectKey, v: Option<T>): set<(SubjectKey, T)> {
    if v.Some? then table + {(k, v.value)} else table
  }

  /** A missing counter row reads as zeros. */
  function Row(s: Subjects, k: SubjectKey): Aggregate {
    if k in s.aggregates then s.aggregates[k] else Aggregate(0, 0, 0, 0)
  }

  function Upsert(s: Subjects, t: Touch): Subjects {
    var callsigns := Listed(s.callsigns, t.key, t.callsign);
    var entities := Listed(s.entities, t.key, t.entityId);
    var row := Aggregate(
      Row(s, t.key).qsoCount + t.qsoDelta,
      Row(s, t.key).activationCount + t.activationDelta,
      |Section(callsigns, t.key)|,
      |Section(entities, t.key)|);
    Subjects(s.aggregates[t.key := row], callsigns, entities)
  }

  // ---------------------------------------------------------------- inserts

  function ToQso(aid: Id, site: Site, r: Record): Qso {
    Qso(aid, site.programme, site.operatorId, r.hunterId, r.workedCallsign, r.workedEntityId,
        r.occurredAt, r.band, r.mode, Valid)
  }

  function ActivatorTouch(site: Site, q: Qso): Touch {
    Touch(SubjectKey(site.programme, site.operatorId, ACTIVATOR), 1, 0, Some(q.workedCallsign), Some(site.entityId))
  }

  function HunterTouch(site: Site, q: Qso): Touch
    requires q.hunterId.Some?
  {
    Touch(SubjectKey(site.programme, q.hunterId.value, HUNTER), 1, 0, Some(q.workedCallsign), q.workedEntityId)
  }

  /** The subject rows one newly stored QSO touches. */
  function ApplyQso(s: Subjects, site: Site, q: Qso): Subjects {
    var activator := Upsert(s, ActivatorTouch(site, q));
    if q.hunterId.Some? then Upsert(activator, HunterTouch(site, q)) else activator
  }

  /** The upserts for the stored rows with the given keys, one row after another. */
  function ApplyQsos(s: Subjects, site: Site, qsos: map<string, Qso>, keys: seq<string>): Subjects
    requires forall d | d in keys :: d in qsos
    decreases |keys|
  {
    if keys == [] then s else ApplyQsos(ApplyQso(s, site, qsos[keys[0]]), site, qsos, keys[1..])
  }

  /** Non-VOID QSOs of one activation, by deduplication key. */
  function ActivationQsos(qsos: map<string, Qso>, aid: Id): set<string> {
    set d | d in qsos && qsos[d].activationId == aid && qsos[d].status != Void
  }

  function WorkedCallsigns(qsos: map<string, Qso>, keys: set<string>): set<string>
    requires keys <= qsos.Keys
  {
    set d | d in keys :: qsos[d].workedCallsign
  }

  function WorkedEntities(qsos: map<string, Qso>, keys: set<string>): set<Id>
    requires keys <= qsos.Keys
  {
    set d | d in keys && qsos[d].workedEntityId.Some? :: qsos[d].workedEntityId.value
  }

  /** An activation row whose counters are given `count` and recomputed distinct counts. */
  function WithCounters(a: Activation, aid: Id, qsos: map<string, Qso>, count: int): Activation {
    var own := ActivationQsos(qsos, aid);
    a.(qsoCount := count,
       uniqueCallsigns := |WorkedCallsigns(qsos, own)|,
       uniqueEntities := |WorkedEntities(qsos, own)|)
  }

  predicate InWindow(a: Activation, r: Record) {
    a.startedAt <= r.occurredAt && (a.expiresAt.Some? ==> r.occurredAt <= a.expiresAt.value)
  }

  function CreateActivation(t: Tables, aid: Id, site: Site, startedAt: nat, expiresAt: Option<nat>): Result<Tables, Error> {
    if aid in t.ledger.activations then Failure(DuplicateId)
    else
      var a := Activation(site, startedAt, expiresAt, Open, 0, 0, 0);
      var touch := Touch(SubjectKey(site.programme, site.operatorId, ACTIVATOR), 0, 1, None, Some(site.entityId));
      Success(Tables(t.ledger.(activations := t.ledger.activations[aid := a]), Upsert(t.subjects, touch)))
  }

  /** The body of an insert once the activation row is locked and the window checked. */
  function StoreQso(t: Tables, aid: Id, r: Record): Tables
    requires aid in t.ledger.activations
  {
    if r.deduplicationKey in t.ledger.qsos then t
    else
      var a := t.ledger.activations[aid];
      var q := ToQso(aid, a.site, r);
      var qsos := t.ledger.qsos[r.deduplicationKey := q];
      Tables(
        Ledger(t.ledger.activations[aid := WithCounters(a, aid, qsos, a.qsoCount + 1)], qsos),
        ApplyQso(t.subjects, a.site, q))
  }

  function InsertQso(t: Tables, aid: Id, r: Record): Result<Tables, Error> {
    if aid !in t.ledger.activations then Failure(MissingActivation)
    else if t.ledger.activations[aid].status != Open then Failure(NotOpen)
    else if !InWindow(t.ledger.activations[aid], r) then Failure(OutsideWindow)
    else Success(StoreQso(t, aid, r))
  }

  /** INSERT ... ON CONFLICT DO NOTHING over the staged records, in order. */
  function StoreRows(qsos: map<string, Qso>, aid: Id, site: Site, rs: seq<Record>): (stored: map<string, Qso>)
    ensures forall d | d in qsos :: d in stored && stored[d] == qsos[d]
    decreases |rs|
  {
    if rs == [] then qsos
    else if rs[0].deduplicationKey in qsos then StoreRows(qsos, aid, site, rs[1..])
    else StoreRows(qsos[rs[0].deduplicationKey := ToQso(aid, site, rs[0])], aid, site, rs[1..])
  }

  /** The deduplication keys of the rows that statement returns. */
  function StoredKeys(qsos: map<string, Qso>, aid: Id, site: Site, rs: seq<Record>): (keys: seq<string>)
    ensures forall d | d in keys :: d !in qsos && d in StoreRows(qsos, aid, site, rs)
    decreases |rs|
  {
    if rs == [] then []
    else if rs[0].deduplicationKey in qsos then StoredKeys(qsos, aid, site, rs[1..])
    else
      var more := qsos[rs[0].deduplicationKey := ToQso(aid, site, rs[0])];
      [rs[0].deduplicationKey] + StoredKeys(more, aid, site, rs[1..])
  }

  /** The upserts and the counter update that follow a statement which left `qsos`
      and returned the rows `keys`. */
  function AfterStaging(t: Tables, aid: Id, qsos: map<string, Qso>, keys: seq<string>): Tables
    requires aid in t.ledger.activations && forall d | d in keys :: d in qsos
  {
    var a := t.ledger.activations[aid];
    var activations :=
      if keys == [] then t.ledger.activations
      else t.ledger.activations[aid := WithCounters(a, aid, qsos, a.qsoCount + |keys|)];
    Tables(Ledger(activations, qsos), ApplyQsos(t.subjects, a.site, qsos, keys))
  }

  function StoreBatch(t: Tables, aid: Id, rs: seq<Record>): Tables
    requires aid in t.ledger.activations
  {
    var site := t.ledger.activations[aid].site;
    AfterStaging(t, aid, StoreRows(t.ledger.qsos, aid, site, rs), StoredKeys(t.ledger.qsos, aid, site, rs))
  }

  function InsertBatch(t: Tables, aid: Id, rs: seq<Record>): Result<Tables, Error> {
    if aid !in t.ledger.activations then Failure(MissingActivation)
    else if t.ledger.activations[aid].status != Open then Failure(NotOpen)
    else if exists i :: 0 <= i < |rs| && !InWindow(t.ledger.activations[aid], rs[i]) then Failure(OutsideWindow)
    else Success(StoreBatch(t, aid, rs))
  }

  /** The same records submitted one at a time; the first refusal stops the loop. */
  function InsertEach(t: Tables, aid: Id, rs: seq<Record>): Result<Tables, Error>
    decreases |rs|
  {
    if rs == [] then Success(t)
    else
      var first := InsertQso(t, aid, rs[0]);
      if first.Failure? then first else InsertEach(first.value, aid, rs[1..])
  }

  function CloseActivation(t: Tables, aid: Id, valid: bool): Result<Tables, Error> {
    if aid !in t.ledger.activations then Failure(MissingActivation)
    else
      var a := t.ledger.activations[aid].(status := if valid then Closed else ClosedInvalid);
      Success(t.(ledger := t.ledger.(activations := t.ledger.activations[aid := a])))
  }

  // ------------------------------------------- the SELECTs of the rebuild

  /** The activations the rebuild groups under a subject row. */
  function OwnedActivations(l: Ledger, k: SubjectKey): set<Id> {
    if k.category == ACTIVATOR then
      set a | a in l.activations && l.activations[a].site.programme == k.programme && l.activations[a].site.operatorId == k.subject
    else {}
  }

  predicate Owns(l: Ledger, k: SubjectKey, q: Qso) {
    && q.status != Void
    && q.activationId in l.activations
    && match k.category
       case ACTIVATOR => q.activationId in OwnedActivations(l, k)
       case HUNTER => q.programme == k.programme && q.hunterId == Some(k.subject)
  }

  /** The non-VOID QSOs the rebuild groups under a subject row. */
  function OwnedQsos(l: Ledger, k: SubjectKey): set<string> {
    set d | d in l.qsos && Owns(l, k, l.qsos[d])
  }

  function RefCallsigns(l: Ledger, k: SubjectKey): set<string> {
    WorkedCallsigns(l.qsos, OwnedQsos(l, k))
  }

  /** count(DISTINCT a.entity_id) over the outer join, or count(DISTINCT q.worked_entity_id). */
  function RefEntities(l: Ledger, k: SubjectKey): set<Id> {
    match k.category
    case ACTIVATOR => set a | a in OwnedActivations(l, k) :: l.activations[a].site.entityId
    case HUNTER => WorkedEntities(l.qsos, OwnedQsos(l, k))
  }

  /** The entities the rebuild puts in the side table: for an activator an inner
      join with the QSOs, which drops activations without any. */
  function JoinedEntities(l: Ledger, k: SubjectKey): set<Id> {
    match k.category
    case ACTIVATOR => set d | d in OwnedQsos(l, k) :: l.activations[l.qsos[d].activationId].site.entityId
    case HUNTER => RefEntities(l, k)
  }

  function RefAggregate(l: Ledger, k: SubjectKey): Aggregate {
    Aggregate(|OwnedQsos(l, k)|, |OwnedActivations(l, k)|, |RefCallsigns(l, k)|, |RefEntities(l, k)|)
  }

  /** Whether GROUP BY yields a row for k. */
  predicate Present(l: Ledger, k: SubjectKey) {
    if k.category == ACTIVATOR then OwnedActivations(l, k) != {} else OwnedQsos(l, k) != {}
  }

  /** Every key under which the rebuild could group something. */
  function GroupKeys(l: Ledger): set<SubjectKey> {
    (set a | a in l.activations :: SubjectKey(l.activations[a].site.programme, l.activations[a].site.operatorId, ACTIVATOR)) +
    (set d | d in l.qsos && l.qsos[d].hunterId.Some? :: SubjectKey(l.qsos[d].programme, l.qsos[d].hunterId.value, HUNTER))
  }

  /** The rows under which GROUP BY yields something for the given subjects. */
  function Groups(l: Ledger, ids: set<Id>): set<SubjectKey> {
    set k | k in GroupKeys(l) && k.subject in ids && Present(l, k)
  }

  /** The subject rows left after those of the given subjects are deleted. */
  function Others(s: Subjects, ids: set<Id>): Subjects {
    Subjects(
      map k | k in s.aggregates && k.subject !in ids :: s.aggregates[k],
      set p | p in s.callsigns && p.0.subject !in ids,
      set p | p in s.entities && p.0.subject !in ids)
  }

  /** The rows the three INSERT ... SELECT statements add for the given groups. */
  function Derived(l: Ledger, groups: set<SubjectKey>): Subjects {
    Subjects(
      map k | k in groups :: RefAggregate(l, k),
      set k, c | k in groups && c in RefCallsigns(l, k) :: (k, c),
      set k, e | k in groups && e in JoinedEntities(l, k) :: (k, e))
  }

  function Merged(s: Subjects, r: Subjects): Subjects {
    Subjects(s.aggregates + r.aggregates, s.callsigns + r.callsigns, s.entities + r.entities)
  }

  /** Delete and re-derive every row of the given subjects, in all programmes and categories. */
  function Rebuild(l: Ledger, s: Subjects, ids: set<Id>): Subjects {
    Merged(Others(s, ids), Derived(l, Groups(l, ids)))
  }

  // ---------------------------------------------------------------- cascade

  predicate RefersTo(l: Ledger, q: Qso, e: Id) {
    && q.status != Void
    && q.activationId in l.activations
    && (q.workedEntityId == Some(e) || l.activations[q.activationId].site.entityId == e)
  }

  /** The QSO rows the cascade deletes. */
  function Doomed(l: Ledger, e: Id): set<string> {
    set d | d in l.qsos && RefersTo(l, l.qsos[d], e)
  }

  function ActivationsAt(l: Ledger, e: Id): set<Id> {
    set a | a in l.activations && l.activations[a].site.entityId == e
  }

  /** The subjects the cascade collects for rebuilding. */
  function Collected(l: Ledger, e: Id): set<Id> {
    (set a | a in ActivationsAt(l, e) :: l.activations[a].site.operatorId) +
    (set d | d in Doomed(l, e) :: l.qsos[d].operatorId) +
    (set d | d in Doomed(l, e) && l.qsos[d].hunterId.Some? :: l.qsos[d].hunterId.value)
  }

  function AffectedActivations(l: Ledger, e: Id): set<Id> {
    (set d | d in Doomed(l, e) :: l.qsos[d].activationId) + ActivationsAt(l, e)
  }

  function CascadeLedger(l: Ledger, e: Id): Ledger {
    var qsos := map d | d in l.qsos && d !in Doomed(l, e) :: l.qsos[d];
    Ledger(
      map a | a in l.activations ::
        if a in AffectedActivations(l, e) then
          WithCounters(l.activations[a], a, qsos, |ActivationQsos(qsos, a)|).(
            status := if l.activations[a].site.entityId == e then ClosedInvalid else l.activations[a].status)
        else l.activations[a],
      qsos)
  }

  function Cascade(t: Tables, e: Id): Tables {
    var l := CascadeLedger(t.ledger, e);
    Tables(l, Rebuild(l, t.subjects, Collected(t.ledger, e)))
  }

  // ------------------------------------------------------------------- runs

  datatype Op =
    | OpCreate(aid: Id, site: Site, startedAt: nat, expiresAt: Option<nat>)
    | OpInsert(aid: Id, record: Record)
    | OpBatch(aid: Id, records: seq<Record>)
    | OpClose(aid: Id, valid: bool)
    | OpCascade(entityId: Id)

  /** One committed transaction; a refused one rolls back. */
  function Step(t: Tables, op: Op): Tables {
    var outcome := match op
      case OpCreate(aid, site, startedAt, expiresAt) => CreateActivation(t, aid, site, startedAt, expiresAt)
      case OpInsert(aid, r) => InsertQso(t, aid, r)
      case OpBatch(aid, rs) => InsertBatch(t, aid, rs)
      case OpClose(aid, valid) => CloseActivation(t, aid, valid)
      case OpCascade(e) => Success(Cascade(t, e));
    if outcome.Success? then outcome.value else t
  }

  function Run(t: Tables, ops: seq<Op>): Tables
    decreases |ops|
  {
    if ops == [] then t else Run(Step(t, ops[0]), ops[1..])
  }
}
