/** Where the rows of the ledger come from: every stored QSO is a submitted record inside
    the validity window of its activation. */
module StoredRows {
  import opened Wrappers
  import opened Ledger
  import opened Aggregates
  import opened Batches
  import opened Cascades

  /** The row holds the record's fields and its activation's, and is valid. */
  ghost predicate RowOf(q: Qso, aid: Id, site: Site, r: Record) {
    && q.activationId == aid && q.programme == site.programme && q.operatorId == site.operatorId
    && q.hunterId == r.hunterId && q.workedCallsign == r.workedCallsign && q.workedEntityId == r.workedEntityId
    && q.occurredAt == r.occurredAt && q.band == r.band && q.mode == r.mode
    && q.status == Valid
  }

  /** From the start of the activation to its end, if it has one, both included. */
  ghost predicate WithinWindow(a: Activation, instant: nat) {
    a.startedAt <= instant && (a.expiresAt.None? || instant <= a.expiresAt.value)
  }

  ghost predicate RowFits(l: Ledger, d: string)
    requires d in l.qsos
  {
    var aid := l.qsos[d].activationId;
    aid in l.activations && WithinWindow(l.activations[aid], l.qsos[d].occurredAt)
  }

  ghost predicate Submits(op: Op, aid: Id, r: Record) {
    op == OpInsert(aid, r) || (op.OpBatch? && op.aid == aid && r in op.records)
  }

  /** Activations keep their site and their window. */
  ghost predicate SameWindows(l: Ledger, m: Ledger) {
    forall a | a in l.activations ::
      && a in m.activations && m.activations[a].site == l.activations[a].site
      && m.activations[a].startedAt == l.activations[a].startedAt && m.activations[a].expiresAt == l.activations[a].expiresAt
  }

  /** A row after a step is an old one, or that of a record the step submitted, inside the window. */
  ghost predicate RowOrigin(l: Ledger, m: Ledger, op: Op, d: string)
    requires d in m.qsos
  {
    || (d in l.qsos && m.qsos[d] == l.qsos[d])
    || exists aid, r :: Submits(op, aid, r) && NewRow(l, m, d, aid, r)
  }

  ghost predicate NewRow(l: Ledger, m: Ledger, d: string, aid: Id, r: Record)
    requires d in m.qsos
  {
    && d !in l.qsos && r.deduplicationKey == d
    && aid in l.activations && l.activations[aid].status == Open
    && WithinWindow(l.activations[aid], r.occurredAt)
    && RowOf(m.qsos[d], aid, l.activations[aid].site, r)
  }

  lemma {:induction false} StoredRowOrigin(qsos: map<string, Qso>, aid: Id, site: Site, rs: seq<Record>, d: string)
    requires d in StoreRows(qsos, aid, site, rs) && d !in qsos
    ensures exists r :: r in rs && r.deduplicationKey == d && RowOf(StoreRows(qsos, aid, site, rs)[d], aid, site, r)
    decreases |rs|
  {
    var first := rs[0].deduplicationKey;
    assert rs[0] in rs && forall r | r in rs[1..] :: r in rs;
    if first in qsos {
      StoredRowOrigin(qsos, aid, site, rs[1..], d);
    } else {
      var more := qsos[first := ToQso(aid, site, rs[0])];
      if d == first {
        assert StoreRows(more, aid, site, rs[1..])[d] == more[d];
      } else {
        StoredRowOrigin(more, aid, site, rs[1..], d);
      }
    }
  }

  lemma StepKeepsWindows(t: Tables, op: Op)
    ensures SameWindows(t.ledger, Step(t, op).ledger)
  {
  }

  lemma InsertOrigin(t: Tables, aid: Id, r: Record, d: string)
    requires d in Step(t, OpInsert(aid, r)).ledger.qsos
    ensures RowOrigin(t.ledger, Step(t, OpInsert(aid, r)).ledger, OpInsert(aid, r), d)
  {
    var m := Step(t, OpInsert(aid, r)).ledger;
    if d !in t.ledger.qsos {
      assert NewRow(t.ledger, m, d, aid, r);
      assert Submits(OpInsert(aid, r), aid, r);
    }
  }

  lemma BatchOrigin(t: Tables, aid: Id, rs: seq<Record>, d: string)
    requires d in Step(t, OpBatch(aid, rs)).ledger.qsos
    ensures RowOrigin(t.ledger, Step(t, OpBatch(aid, rs)).ledger, OpBatch(aid, rs), d)
  {
    var m := Step(t, OpBatch(aid, rs)).ledger;
    if d !in t.ledger.qsos {
      AcceptedIsStored(t, aid, rs);
      var site := t.ledger.activations[aid].site;
      StoredRowOrigin(t.ledger.qsos, aid, site, rs, d);
      var r :| r in rs && r.deduplicationKey == d && RowOf(m.qsos[d], aid, site, r);
      assert InWindow(t.ledger.activations[aid], r);
      assert Submits(OpBatch(aid, rs), aid, r) && NewRow(t.ledger, m, d, aid, r);
    }
  }

  lemma StepOrigin(t: Tables, op: Op, d: string)
    requires d in Step(t, op).ledger.qsos
    ensures RowOrigin(t.ledger, Step(t, op).ledger, op, d)
  {
    match op
    case OpInsert(aid, r) => InsertOrigin(t, aid, r, d);
    case OpBatch(aid, rs) => BatchOrigin(t, aid, rs, d);
    case _ =>
  }

  ghost predicate AllFit(l: Ledger) {
    forall d | d in l.qsos :: RowFits(l, d)
  }

  lemma StepKeepsFit(t: Tables, op: Op)
    requires AllFit(t.ledger)
    ensures AllFit(Step(t, op).ledger)
  {
    var l, m := t.ledger, Step(t, op).ledger;
    StepKeepsWindows(t, op);
    forall d | d in m.qsos ensures RowFits(m, d) {
      StepOrigin(t, op, d);
      if d in l.qsos && m.qsos[d] == l.qsos[d] {
        assert RowFits(l, d);
      }
    }
  }

  lemma {:induction false} RunKeepsFit(t: Tables, ops: seq<Op>)
    requires AllFit(t.ledger)
    ensures AllFit(Run(t, ops).ledger)
    decreases |ops|
  {
    if ops != [] {
      StepKeepsFit(t, ops[0]);
      RunKeepsFit(Step(t, ops[0]), ops[1..]);
    }
  }

  /** In every run each stored QSO lies inside the window of its own activation. */
  lemma StoredInsideWindow(ops: seq<Op>, d: string)
    requires d in Run(EMPTY, ops).ledger.qsos
    ensures var l := Run(EMPTY, ops).ledger;
      var q := l.qsos[d];
      && q.activationId in l.activations
      && l.activations[q.activationId].startedAt <= q.occurredAt
      && (l.activations[q.activationId].expiresAt.Some? ==> q.occurredAt <= l.activations[q.activationId].expiresAt.value)
  {
    RunKeepsFit(EMPTY, ops);
    assert RowFits(Run(EMPTY, ops).ledger, d);
  }

  /** Some operation of the run submitted a record with the row's key and fields. */
  ghost predicate Submitted(ops: seq<Op>, d: string, q: Qso) {
    exists i: nat, aid: Id, site: Site, r: Record ::
      i < |ops| && Submits(ops[i], aid, r) && r.deduplicationKey == d && RowOf(q, aid, site, r)
  }

  lemma {:induction false} RowsAreSubmittedFrom(t: Tables, ops: seq<Op>, d: string)
    requires d in Run(t, ops).ledger.qsos
    ensures (d in t.ledger.qsos && Run(t, ops).ledger.qsos[d] == t.ledger.qsos[d]) || Submitted(ops, d, Run(t, ops).ledger.qsos[d])
    decreases |ops|
  {
    if ops != [] {
      var u, q := Step(t, ops[0]), Run(t, ops).ledger.qsos[d];
      RowsAreSubmittedFrom(u, ops[1..], d);
      if Submitted(ops[1..], d, q) {
        var i: nat, aid, site, r :|
          i < |ops[1..]| && Submits(ops[1..][i], aid, r) && r.deduplicationKey == d && RowOf(q, aid, site, r);
        assert ops[i + 1] == ops[1..][i];
        assert Submits(ops[i + 1], aid, r) && RowOf(q, aid, site, r);
      } else {
        StepOrigin(t, ops[0], d);
        if !(d in t.ledger.qsos && u.ledger.qsos[d] == t.ledger.qsos[d]) {
          var aid, r :| Submits(ops[0], aid, r) && NewRow(t.ledger, u.ledger, d, aid, r);
          assert Submits(ops[0], aid, r) && RowOf(q, aid, t.ledger.activations[aid].site, r);
        }
      }
    }
  }

  /** In every run each stored QSO is a submitted record, field by field, and valid. */
  lemma RowsAreSubmitted(ops: seq<Op>, d: string)
    requires d in Run(EMPTY, ops).ledger.qsos
    ensures Submitted(ops, d, Run(EMPTY, ops).ledger.qsos[d])
  {
    RowsAreSubmittedFrom(EMPTY, ops, d);
  }

  // ------------------------------------------------ activations

  /** What one operation does to the status of an activation. */
  lemma StatusAfter(t: Tables, op: Op, a: Id)
    ensures a in Step(t, op).ledger.activations <==> a in t.ledger.activations || (op.OpCreate? && op.aid == a)
    ensures a !in t.ledger.activations && op.OpCreate? && op.aid == a ==>
      var row := Step(t, op).ledger.activations[a];
      row.site == op.site && row.startedAt == op.startedAt && row.expiresAt == op.expiresAt && row.status == Open
    ensures a in t.ledger.activations ==>
      Step(t, op).ledger.activations[a].status ==
        if op.OpClose? && op.aid == a then (if op.valid then Closed else ClosedInvalid)
        else if op.OpCascade? && t.ledger.activations[a].site.entityId == op.entityId then ClosedInvalid
        else t.ledger.activations[a].status
  {
  }

  // ------------------------------------------------ the statistics, column by column

  /** The QSOs an operator, or a hunter, has in a programme. */
  ghost function QsosOf(l: Ledger, k: SubjectKey): set<string> {
    set d | d in l.qsos && l.qsos[d].status != Void && l.qsos[d].programme == k.programme &&
            (if k.category == ACTIVATOR then l.qsos[d].operatorId == k.subject else l.qsos[d].hunterId == Some(k.subject))
  }

  ghost function CallsignsOf(l: Ledger, k: SubjectKey): set<string> {
    set d | d in QsosOf(l, k) :: l.qsos[d].workedCallsign
  }

  /** The activations an operator has opened in a programme; a hunter has none. */
  ghost function ActivationsOf(l: Ledger, k: SubjectKey): set<Id> {
    set a | a in l.activations && k.category == ACTIVATOR &&
            l.activations[a].site.programme == k.programme && l.activations[a].site.operatorId == k.subject
  }

  /** The entities an operator has activated, or a hunter has worked. */
  ghost function EntitiesOf(l: Ledger, k: SubjectKey): set<Id> {
    if k.category == ACTIVATOR then set a | a in ActivationsOf(l, k) :: l.activations[a].site.entityId
    else set d | d in QsosOf(l, k) && l.qsos[d].workedEntityId.Some? :: l.qsos[d].workedEntityId.value
  }

  lemma OwnedAreQsosOf(l: Ledger, k: SubjectKey)
    requires WellFormed(l)
    ensures OwnedQsos(l, k) == QsosOf(l, k) && OwnedActivations(l, k) == ActivationsOf(l, k)
  {
    assert OwnedActivations(l, k) == ActivationsOf(l, k);
    forall d ensures d in OwnedQsos(l, k) <==> d in QsosOf(l, k) {
    }
  }

  lemma TruthIsColumns(l: Ledger, k: SubjectKey)
    requires WellFormed(l)
    ensures RefAggregate(l, k) == Aggregate(|QsosOf(l, k)|, |ActivationsOf(l, k)|, |CallsignsOf(l, k)|, |EntitiesOf(l, k)|)
    ensures Present(l, k) <==> ActivationsOf(l, k) != {} || (k.category == HUNTER && QsosOf(l, k) != {})
  {
    OwnedAreQsosOf(l, k);
    assert RefCallsigns(l, k) == CallsignsOf(l, k);
    assert RefEntities(l, k) == EntitiesOf(l, k);
    assert k.category == HUNTER ==> ActivationsOf(l, k) == {};
  }

  /** After every run from empty tables: what a subject's row counts, in terms of the
      columns of the ledger. */
  lemma RowsCountTheLedger(ops: seq<Op>, k: SubjectKey)
    ensures var t := Run(EMPTY, ops);
      var row := Row(t.subjects, k);
      && row.qsoCount == |QsosOf(t.ledger, k)|
      && row.activationCount == |ActivationsOf(t.ledger, k)|
      && row.uniqueCallsigns == |CallsignsOf(t.ledger, k)|
      && (k.category == HUNTER || CascadesLast(ops) ==> row.uniqueEntities == |EntitiesOf(t.ledger, k)|)
      && (k in t.subjects.aggregates <==>
          ActivationsOf(t.ledger, k) != {} || (k.category == HUNTER && QsosOf(t.ledger, k) != {}))
  {
    EmptyIsExact();
    RunKeepsExact(EMPTY, ops);
    TruthIsColumns(Run(EMPTY, ops).ledger, k);
    RunsAreExact(ops, k);
  }

  /** After every run: the three counters of each activation, in the same terms. */
  lemma ActivationsCountTheirQsos(ops: seq<Op>, a: Id)
    requires a in Run(EMPTY, ops).ledger.activations
    ensures var l := Run(EMPTY, ops).ledger;
      var mine := set d | d in l.qsos && l.qsos[d].status != Void && l.qsos[d].activationId == a;
      && l.activations[a].qsoCount == |mine|
      && l.activations[a].uniqueCallsigns == |set d | d in mine :: l.qsos[d].workedCallsign|
      && l.activations[a].uniqueEntities == |set d | d in mine && l.qsos[d].workedEntityId.Some? :: l.qsos[d].workedEntityId.value|
  {
    var l := Run(EMPTY, ops).ledger;
    RunsKeepCounters(ops, a);
    var mine := set d | d in l.qsos && l.qsos[d].status != Void && l.qsos[d].activationId == a;
    assert ActivationQsos(l.qsos, a) == mine;
    assert WorkedCallsigns(l.qsos, mine) == set d | d in mine :: l.qsos[d].workedCallsign;
    assert WorkedEntities(l.qsos, mine) == set d | d in mine && l.qsos[d].workedEntityId.Some? :: l.qsos[d].workedEntityId.value;
  }

  // ------------------------------------------------ what a cascade deletes

  /** The QSO worked the entity, or was made from it. */
  ghost predicate Mentions(l: Ledger, d: string, e: Id)
    requires d in l.qsos
  {
    && l.qsos[d].status != Void
    && (l.qsos[d].workedEntityId == Some(e) ||
        (l.qsos[d].activationId in l.activations && l.activations[l.qsos[d].activationId].site.entityId == e))
  }

  /** A cascade deletes exactly the QSOs that worked the entity or were made from it, keeps
      every other row as it is, and closes exactly the entity's activations as invalid. */
  lemma CascadeDeletes(t: Tables, e: Id)
    requires WellFormed(t.ledger)
    ensures var l, m := t.ledger, Cascade(t, e).ledger;
      && (forall d | d in l.qsos :: d in m.qsos <==> !Mentions(l, d, e))
      && (forall d | d in m.qsos :: d in l.qsos && m.qsos[d] == l.qsos[d])
      && m.activations.Keys == l.activations.Keys
      && (forall a | a in l.activations :: m.activations[a].site == l.activations[a].site &&
            m.activations[a].startedAt == l.activations[a].startedAt && m.activations[a].expiresAt == l.activations[a].expiresAt &&
            m.activations[a].status == if l.activations[a].site.entityId == e then ClosedInvalid else l.activations[a].status)
  {
    forall d | d in t.ledger.qsos ensures RefersTo(t.ledger, t.ledger.qsos[d], e) <==> Mentions(t.ledger, d, e) {
    }
  }
}
