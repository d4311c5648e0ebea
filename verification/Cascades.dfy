/** Entity cascades: rebuilding only the collected subjects restores what rebuilding
    every subject would, and whole runs stay exact. */
module Cascades {
  import opened Wrappers
  import opened Ledger
  import opened Aggregates
  import opened Batches

  // ------------------------------------------------ the rebuild

  /** The row the rebuild leaves for a subject. */
  ghost function RebuiltView(l: Ledger, k: SubjectKey): View {
    View(Present(l, k), if Present(l, k) then RefAggregate(l, k) else Aggregate(0, 0, 0, 0),
         RefCallsigns(l, k), JoinedEntities(l, k))
  }

  lemma PresentIsGrouped(l: Ledger, k: SubjectKey)
    requires Present(l, k)
    ensures k in GroupKeys(l)
  {
    if k.category == ACTIVATOR {
      var a :| a in OwnedActivations(l, k);
      assert k == SubjectKey(l.activations[a].site.programme, l.activations[a].site.operatorId, ACTIVATOR);
    } else {
      var d :| d in OwnedQsos(l, k);
      assert k == SubjectKey(l.qsos[d].programme, l.qsos[d].hunterId.value, HUNTER);
    }
  }

  lemma AbsentIsEmpty(l: Ledger, k: SubjectKey)
    requires !Present(l, k)
    ensures OwnedQsos(l, k) == {} && OwnedActivations(l, k) == {}
    ensures RefCallsigns(l, k) == {} && RefEntities(l, k) == {} && JoinedEntities(l, k) == {}
  {
    assert OwnedQsos(l, k) == {};
  }

  /** The side table a rebuild leaves, as the statements build it. */
  ghost function RebuiltTable<T>(table: set<(SubjectKey, T)>, ids: set<Id>, derived: set<(SubjectKey, T)>): set<(SubjectKey, T)> {
    (set p | p in table && p.0.subject !in ids) + derived
  }

  lemma RebuiltSection<T>(table: set<(SubjectKey, T)>, ids: set<Id>, derived: set<(SubjectKey, T)>, k: SubjectKey, now: set<T>)
    requires forall x :: (k, x) in derived <==> k.subject in ids && x in now
    ensures Section(RebuiltTable(table, ids, derived), k) == if k.subject in ids then now else Section(table, k)
  {
    var r := RebuiltTable(table, ids, derived);
    forall x ensures x in Section(r, k) <==> if k.subject in ids then x in now else x in Section(table, k) {
      assert x in Section(r, k) <==> (k, x) in r;
      assert x in Section(table, k) <==> (k, x) in table;
    }
  }

  lemma RebuildView(l: Ledger, s: Subjects, ids: set<Id>, k: SubjectKey)
    ensures SubjectView(Rebuild(l, s, ids), k) == if k.subject in ids then RebuiltView(l, k) else SubjectView(s, k)
  {
    var r := Rebuild(l, s, ids);
    var groups := set k | k in GroupKeys(l) && k.subject in ids && Present(l, k);
    if Present(l, k) {
      PresentIsGrouped(l, k);
    } else {
      AbsentIsEmpty(l, k);
    }
    var callsigns := set k, c | k in groups && c in RefCallsigns(l, k) :: (k, c);
    var entities := set k, e | k in groups && e in JoinedEntities(l, k) :: (k, e);
    RebuiltSection(s.callsigns, ids, callsigns, k, RefCallsigns(l, k));
    RebuiltSection(s.entities, ids, entities, k, JoinedEntities(l, k));
    RebuildRow(l, s, ids, k);
  }

  lemma RebuildRow(l: Ledger, s: Subjects, ids: set<Id>, k: SubjectKey)
    requires Present(l, k) ==> k in GroupKeys(l)
    ensures k.subject in ids ==>
      && (k in Rebuild(l, s, ids).aggregates <==> Present(l, k))
      && Row(Rebuild(l, s, ids), k) == RebuiltView(l, k).row
    ensures k.subject !in ids ==>
      && (k in Rebuild(l, s, ids).aggregates <==> k in s.aggregates)
      && Row(Rebuild(l, s, ids), k) == Row(s, k)
  {
  }

  lemma JoinedAreActivated(l: Ledger, k: SubjectKey)
    ensures JoinedEntities(l, k) <= RefEntities(l, k)
  {
    if k.category == ACTIVATOR {
      forall e | e in JoinedEntities(l, k) ensures e in RefEntities(l, k) {
        var d :| d in OwnedQsos(l, k) && l.activations[l.qsos[d].activationId].site.entityId == e;
        assert l.qsos[d].activationId in OwnedActivations(l, k);
      }
    }
  }

  lemma RebuiltAgrees(l: Ledger, k: SubjectKey)
    ensures Agree(RebuiltView(l, k), SubjectTruth(l, k))
    ensures RebuiltView(l, k).row.uniqueEntities == |RefEntities(l, k)|
  {
    JoinedAreActivated(l, k);
    SubsetSize(JoinedEntities(l, k), RefEntities(l, k));
    if !Present(l, k) {
      AbsentIsEmpty(l, k);
    }
  }

  lemma RebuildNone(l: Ledger, s: Subjects)
    ensures Rebuild(l, s, {}) == s
  {
    forall k ensures SubjectView(Rebuild(l, s, {}), k) == SubjectView(s, k) {
      RebuildView(l, s, {}, k);
    }
    ViewsDetermineSubjects(Rebuild(l, s, {}), s);
  }

  /** Rebuilding subjects one after another is rebuilding them together. */
  lemma RebuildOneMore(l: Ledger, s: Subjects, ids: set<Id>, id: Id)
    ensures Rebuild(l, Rebuild(l, s, ids), {id}) == Rebuild(l, s, ids + {id})
  {
    var x, y := Rebuild(l, Rebuild(l, s, ids), {id}), Rebuild(l, s, ids + {id});
    forall k ensures SubjectView(x, k) == SubjectView(y, k) {
      RebuildView(l, Rebuild(l, s, ids), {id}, k);
      RebuildView(l, s, ids, k);
      RebuildView(l, s, ids + {id}, k);
    }
    ViewsDetermineSubjects(x, y);
  }

  // ------------------------------------------------ what the cascade does to the ledger

  lemma CascadeSites(l: Ledger, e: Id)
    ensures SameSites(l, CascadeLedger(l, e))
  {
  }

  lemma DoomedOwnersAreCollected(l: Ledger, e: Id, k: SubjectKey, d: string)
    requires WellFormed(l) && d in OwnedQsos(l, k) && d in Doomed(l, e)
    ensures k.subject in Collected(l, e)
  {
    assert k.category == ACTIVATOR ==> l.qsos[d].operatorId == k.subject;
  }

  /** A subject that was not collected owned none of the deleted QSOs. */
  lemma UncollectedKeepsTruth(l: Ledger, e: Id, k: SubjectKey)
    requires WellFormed(l) && k.subject !in Collected(l, e)
    ensures SubjectTruth(CascadeLedger(l, e), k) == SubjectTruth(l, k)
  {
    var m := CascadeLedger(l, e);
    SameSitesSameOwners(l, m, k);
    forall d ensures d in OwnedQsos(m, k) <==> d in OwnedQsos(l, k) {
      if d in OwnedQsos(l, k) && d in Doomed(l, e) {
        DoomedOwnersAreCollected(l, e, k, d);
      }
    }
    assert OwnedQsos(m, k) == OwnedQsos(l, k);
    SameOwnedSameTruth(l, m, k);
  }

  lemma SameOwnedSameTruth(l: Ledger, m: Ledger, k: SubjectKey)
    requires SameSites(l, m) && OwnedQsos(m, k) == OwnedQsos(l, k)
    requires forall d | d in OwnedQsos(l, k) :: m.qsos[d] == l.qsos[d]
    ensures SubjectTruth(m, k) == SubjectTruth(l, k)
  {
    SameSitesSameOwners(l, m, k);
    assert RefCallsigns(m, k) == RefCallsigns(l, k);
    assert RefEntities(m, k) == RefEntities(l, k);
    assert JoinedEntities(m, k) == JoinedEntities(l, k);
  }

  lemma CascadeCounters(l: Ledger, e: Id)
    requires WellFormed(l) && CountersExact(l)
    ensures WellFormed(CascadeLedger(l, e)) && CountersExact(CascadeLedger(l, e))
  {
    var m := CascadeLedger(l, e);
    forall a | a in m.activations ensures CountersExactAt(m, a) {
      assert CountersExactAt(l, a);
      if a !in AffectedActivations(l, e) {
        UnaffectedActivation(l, e, a);
      }
    }
  }

  lemma UnaffectedActivation(l: Ledger, e: Id, a: Id)
    requires WellFormed(l) && a in l.activations && a !in AffectedActivations(l, e)
    ensures var m := CascadeLedger(l, e);
      && ActivationQsos(m.qsos, a) == ActivationQsos(l.qsos, a)
      && WorkedCallsigns(m.qsos, ActivationQsos(m.qsos, a)) == WorkedCallsigns(l.qsos, ActivationQsos(l.qsos, a))
      && WorkedEntities(m.qsos, ActivationQsos(m.qsos, a)) == WorkedEntities(l.qsos, ActivationQsos(l.qsos, a))
  {
    var m := CascadeLedger(l, e);
    assert forall d | d in Doomed(l, e) :: l.qsos[d].activationId in AffectedActivations(l, e);
    assert ActivationQsos(m.qsos, a) == ActivationQsos(l.qsos, a);
  }

  // ------------------------------------------------ the cascade keeps the index exact

  lemma CascadeView(t: Tables, e: Id, k: SubjectKey)
    requires Exact(t)
    ensures ExactAt(Cascade(t, e), k)
    ensures var u := Cascade(t, e);
      if k.subject in Collected(t.ledger, e) then SubjectView(u.subjects, k) == RebuiltView(u.ledger, k)
      else
        && SubjectView(u.subjects, k) == SubjectView(t.subjects, k)
        && SubjectTruth(u.ledger, k) == SubjectTruth(t.ledger, k)
  {
    var u := Cascade(t, e);
    RebuildView(u.ledger, t.subjects, Collected(t.ledger, e), k);
    if k.subject in Collected(t.ledger, e) {
      RebuiltAgrees(u.ledger, k);
    } else {
      assert ExactAt(t, k);
      UncollectedKeepsTruth(t.ledger, e, k);
    }
  }

  lemma CascadeKeepsExact(t: Tables, e: Id)
    requires Exact(t)
    ensures Exact(Cascade(t, e))
  {
    CascadeCounters(t.ledger, e);
    forall k ensures ExactAt(Cascade(t, e), k) {
      CascadeView(t, e, k);
    }
  }

  /** Every entity column equals what the SELECT counts. */
  ghost predicate EntityColumnsExact(t: Tables) {
    forall k :: EntityColumnExact(t, k)
  }

  ghost predicate EntityColumnExact(t: Tables, k: SubjectKey) {
    Row(t.subjects, k).uniqueEntities == |RefEntities(t.ledger, k)|
  }

  lemma ListedMakesColumnsExact(t: Tables)
    requires Exact(t) && EntitiesListed(t)
    ensures EntityColumnsExact(t)
  {
    forall k ensures EntityColumnExact(t, k) {
      assert ExactAt(t, k);
    }
  }

  lemma CascadeKeepsEntityColumns(t: Tables, e: Id)
    requires Exact(t) && EntityColumnsExact(t)
    ensures EntityColumnsExact(Cascade(t, e))
  {
    var u := Cascade(t, e);
    forall k ensures EntityColumnExact(u, k) {
      CascadeView(t, e, k);
      RebuiltAgrees(u.ledger, k);
      assert EntityColumnExact(t, k);
    }
  }

  /** Everything a row holds apart from the entity count. */
  ghost predicate SameButEntities(v: View, w: View) {
    && v.has == w.has
    && v.row.(uniqueEntities := w.row.uniqueEntities) == w.row
    && v.callsigns == w.callsigns
  }

  lemma AgreementIsUnique(v: View, w: View, r: Truth)
    requires Agree(v, r) && Agree(w, r)
    ensures SameButEntities(v, w)
  {
  }

  /** What a cascade leaves against what a rebuild of any larger set of subjects leaves:
      the same presence, counters and callsigns for every subject, and the same entity
      count exactly where the cascade rebuilt the subject too, the rebuild leaves it alone,
      or its entity count was right beforehand. */
  lemma CollectedSufficeAt(t: Tables, e: Id, ids: set<Id>, k: SubjectKey)
    requires Exact(t) && Collected(t.ledger, e) <= ids
    ensures var u := Cascade(t, e);
      var full := Rebuild(u.ledger, t.subjects, ids);
      && SameButEntities(SubjectView(u.subjects, k), SubjectView(full, k))
      && (Row(u.subjects, k) == Row(full, k) <==>
          (k.subject in Collected(t.ledger, e) || k.subject !in ids || EntityColumnExact(t, k)))
  {
    var u := Cascade(t, e);
    CascadeView(t, e, k);
    RebuildView(u.ledger, t.subjects, ids, k);
    RebuiltAgrees(u.ledger, k);
    if k.subject in ids {
      AgreementIsUnique(SubjectView(u.subjects, k), RebuiltView(u.ledger, k), SubjectTruth(u.ledger, k));
    }
    if k.subject !in Collected(t.ledger, e) {
      assert SubjectTruth(u.ledger, k).entities == SubjectTruth(t.ledger, k).entities;
    }
  }

  /** The subjects in which a wider rebuild would repair an entity count that the cascade
      leaves as it was. */
  ghost predicate StaleColumn(t: Tables, e: Id, ids: set<Id>, k: SubjectKey) {
    k.subject in ids && k.subject !in Collected(t.ledger, e) && !EntityColumnExact(t, k)
  }

  /** Rebuilding only the collected subjects gives the callsigns that rebuilding any
      larger set of subjects would give, and the counters of exactly the subjects without
      a stale entity count; so all counters if and only if there is no such subject. */
  lemma CollectedSuffice(t: Tables, e: Id, ids: set<Id>)
    requires Exact(t) && Collected(t.ledger, e) <= ids
    ensures var u := Cascade(t, e);
      var full := Rebuild(u.ledger, t.subjects, ids);
      && u.subjects.callsigns == full.callsigns
      && u.subjects.aggregates.Keys == full.aggregates.Keys
      && (forall k :: Row(u.subjects, k) == Row(full, k) <==> !StaleColumn(t, e, ids, k))
      && (u.subjects.aggregates == full.aggregates <==> forall k :: !StaleColumn(t, e, ids, k))
  {
    var x, y := Cascade(t, e).subjects, Rebuild(Cascade(t, e).ledger, t.subjects, ids);
    forall k
      ensures SameButEntities(SubjectView(x, k), SubjectView(y, k))
      ensures Row(x, k) == Row(y, k) <==> !StaleColumn(t, e, ids, k)
    {
      CollectedSufficeAt(t, e, ids, k);
    }
    ViewsDetermineCallsigns(x, y);
    RowsDetermineAggregates(x, y);
  }

  /** Where every entity count is right, as it is in every run without a cascade, the
      wider rebuild brings nothing at all. */
  lemma CollectedSufficeForColumns(t: Tables, e: Id, ids: set<Id>)
    requires Exact(t) && EntityColumnsExact(t) && Collected(t.ledger, e) <= ids
    ensures Cascade(t, e).subjects.aggregates == Rebuild(Cascade(t, e).ledger, t.subjects, ids).aggregates
  {
    CollectedSuffice(t, e, ids);
    forall k ensures !StaleColumn(t, e, ids, k) {
      assert EntityColumnExact(t, k);
    }
  }

  lemma ViewsDetermineCallsigns(x: Subjects, y: Subjects)
    requires forall k :: SameButEntities(SubjectView(x, k), SubjectView(y, k))
    ensures x.callsigns == y.callsigns && x.aggregates.Keys == y.aggregates.Keys
  {
    forall p ensures p in x.callsigns <==> p in y.callsigns {
      assert SameButEntities(SubjectView(x, p.0), SubjectView(y, p.0));
      assert p in x.callsigns <==> p.1 in Section(x.callsigns, p.0);
      assert p in y.callsigns <==> p.1 in Section(y.callsigns, p.0);
    }
    forall k ensures k in x.aggregates <==> k in y.aggregates {
      assert SameButEntities(SubjectView(x, k), SubjectView(y, k));
    }
  }

  lemma RowsDetermineAggregates(x: Subjects, y: Subjects)
    requires x.aggregates.Keys == y.aggregates.Keys
    ensures x.aggregates == y.aggregates <==> forall k :: Row(x, k) == Row(y, k)
  {
    if forall k :: Row(x, k) == Row(y, k) {
      forall k | k in x.aggregates ensures x.aggregates[k] == y.aggregates[k] {
        assert Row(x, k) == Row(y, k);
      }
    }
  }

  // ------------------------------------------------ nothing refers to the entity any more

  lemma NothingDoomedTwice(l: Ledger, e: Id)
    ensures Doomed(CascadeLedger(l, e), e) == {}
  {
    var m := CascadeLedger(l, e);
    CascadeSites(l, e);
    forall d | d in m.qsos ensures !RefersTo(m, m.qsos[d], e) {
      assert RefersTo(m, m.qsos[d], e) == RefersTo(l, l.qsos[d], e);
    }
  }

  lemma QsosSplit(l: Ledger, e: Id)
    ensures |l.qsos| == |CascadeLedger(l, e).qsos| + |Doomed(l, e)|
  {
    var m := CascadeLedger(l, e);
    assert l.qsos.Keys == m.qsos.Keys + Doomed(l, e);
    assert |l.qsos.Keys| == |m.qsos.Keys| + |Doomed(l, e)|;
  }

  /** After the cascade no non-VOID QSO refers to the entity, its activations are
      closed as invalid, and no other QSO is lost. */
  lemma CascadeClears(t: Tables, e: Id)
    ensures var m := Cascade(t, e).ledger;
      && (forall d | d in m.qsos :: !RefersTo(m, m.qsos[d], e))
      && (forall a | a in m.activations && m.activations[a].site.entityId == e :: m.activations[a].status == ClosedInvalid)
      && (forall d | d in t.ledger.qsos && !RefersTo(t.ledger, t.ledger.qsos[d], e) ::
            d in m.qsos && m.qsos[d] == t.ledger.qsos[d])
      && |t.ledger.qsos| == |m.qsos| + |Doomed(t.ledger, e)|
  {
    var m := CascadeLedger(t.ledger, e);
    NothingDoomedTwice(t.ledger, e);
    forall d | d in m.qsos ensures !RefersTo(m, m.qsos[d], e) {
      assert d !in Doomed(m, e);
    }
    QsosSplit(t.ledger, e);
  }

  /** What the deletion preview promises, against what a cascade does: the QSOs counted are
      the fall in the number of QSOs, the activations counted are those the cascade closes
      as invalid, and a preview afterwards counts the same activations and no QSO. */
  lemma PreviewIsDelivered(t: Tables, e: Id)
    ensures var l, m := t.ledger, Cascade(t, e).ledger;
      && |Doomed(l, e)| == |l.qsos| - |m.qsos|
      && ActivationsAt(l, e) == ActivationsAt(m, e) == (set a | a in ActivationsAt(m, e) && m.activations[a].status == ClosedInvalid)
      && Doomed(m, e) == {}
  {
    QsosSplit(t.ledger, e);
    NothingDoomedTwice(t.ledger, e);
    CascadeSites(t.ledger, e);
    forall a | a in ActivationsAt(t.ledger, e) ensures CascadeLedger(t.ledger, e).activations[a].status == ClosedInvalid {
      CascadedActivation(t.ledger, e, a);
    }
  }

  lemma CascadedActivation(l: Ledger, e: Id, a: Id)
    requires a in l.activations && l.activations[a].site.entityId == e
    ensures CascadeLedger(l, e).activations[a].status == ClosedInvalid
  {
  }

  lemma CollectedWithoutDoomed(l: Ledger, m: Ledger, e: Id)
    requires SameSites(l, m) && Doomed(m, e) == {}
    ensures ActivationsAt(m, e) == ActivationsAt(l, e)
    ensures Collected(m, e) <= Collected(l, e)
  {
  }

  lemma SecondCascadeLedger(t: Tables, e: Id)
    requires Exact(t)
    ensures CascadeLedger(Cascade(t, e).ledger, e) == Cascade(t, e).ledger
    ensures Collected(Cascade(t, e).ledger, e) <= Collected(t.ledger, e)
  {
    var m := CascadeLedger(t.ledger, e);
    NothingDoomedTwice(t.ledger, e);
    CascadeCounters(t.ledger, e);
    CascadeSites(t.ledger, e);
    CollectedWithoutDoomed(t.ledger, m, e);
    forall a | a in ActivationsAt(m, e) ensures m.activations[a].status == ClosedInvalid {
      CascadedActivation(t.ledger, e, a);
    }
    SettledLedger(m, e);
  }

  /** A ledger in which nothing is doomed and the entity's activations are closed is a fixed point. */
  lemma SettledLedger(m: Ledger, e: Id)
    requires CountersExact(m) && Doomed(m, e) == {}
    requires forall a | a in ActivationsAt(m, e) :: m.activations[a].status == ClosedInvalid
    ensures CascadeLedger(m, e) == m
  {
    var n := CascadeLedger(m, e);
    assert n.qsos == m.qsos;
    forall a | a in m.activations ensures n.activations[a] == m.activations[a] {
      assert CountersExactAt(m, a);
    }
    assert n.activations == m.activations;
  }

  /** A second cascade for the same entity changes nothing. */
  lemma CascadeIsIdempotent(t: Tables, e: Id)
    requires Exact(t)
    ensures Cascade(Cascade(t, e), e) == Cascade(t, e)
  {
    var u := Cascade(t, e);
    SecondCascadeLedger(t, e);
    var again := Rebuild(u.ledger, u.subjects, Collected(u.ledger, e));
    forall k ensures SubjectView(again, k) == SubjectView(u.subjects, k) {
      RebuildView(u.ledger, u.subjects, Collected(u.ledger, e), k);
      CascadeView(t, e, k);
    }
    ViewsDetermineSubjects(again, u.subjects);
  }

  // ------------------------------------------------ whole runs

  lemma StepKeepsExact(t: Tables, op: Op)
    requires Exact(t)
    ensures Exact(Step(t, op))
    ensures EntitiesListed(t) && !op.OpCascade? ==> EntitiesListed(Step(t, op))
  {
    match op
    case OpCreate(aid, site, startedAt, expiresAt) =>
      if aid !in t.ledger.activations {
        CreateKeepsExact(t, aid, site, startedAt, expiresAt);
      }
    case OpInsert(aid, r) =>
      if aid in t.ledger.activations {
        StoreQsoKeepsExact(t, aid, r);
      }
    case OpBatch(aid, rs) =>
      if aid in t.ledger.activations {
        StoreBatchKeepsExact(t, aid, rs);
      }
    case OpClose(aid, valid) =>
      if aid in t.ledger.activations {
        CloseKeepsExact(t, aid, valid);
      }
    case OpCascade(e) =>
      CascadeKeepsExact(t, e);
  }

  ghost predicate NoCascade(ops: seq<Op>) {
    forall op | op in ops :: !op.OpCascade?
  }

  lemma {:induction false} RunKeepsExact(t: Tables, ops: seq<Op>)
    requires Exact(t)
    ensures Exact(Run(t, ops))
    ensures EntitiesListed(t) && NoCascade(ops) ==> EntitiesListed(Run(t, ops))
    decreases |ops|
  {
    if ops != [] {
      StepKeepsExact(t, ops[0]);
      RunKeepsExact(Step(t, ops[0]), ops[1..]);
    }
  }

  /** No activation and no QSO comes after a cascade. */
  ghost predicate CascadesLast(ops: seq<Op>)
    decreases |ops|
  {
    (forall op | op in ops :: op.OpCascade?) || (!ops[0].OpCascade? && CascadesLast(ops[1..]))
  }

  lemma {:induction false} NoCascadeIsLast(ops: seq<Op>)
    requires NoCascade(ops)
    ensures CascadesLast(ops)
    decreases |ops|
  {
    if ops != [] {
      NoCascadeIsLast(ops[1..]);
    }
  }

  lemma CascadeStep(t: Tables, op: Op)
    requires op.OpCascade?
    ensures Step(t, op) == Cascade(t, op.entityId)
  {
  }

  lemma CascadeStepKeepsColumns(t: Tables, op: Op)
    requires Exact(t) && EntityColumnsExact(t) && op.OpCascade?
    ensures Exact(Step(t, op)) && EntityColumnsExact(Step(t, op))
  {
    CascadeStep(t, op);
    CascadeKeepsExact(t, op.entityId);
    CascadeKeepsEntityColumns(t, op.entityId);
  }

  lemma {:induction false} CascadesKeepColumns(t: Tables, ops: seq<Op>)
    requires Exact(t) && EntityColumnsExact(t) && forall op | op in ops :: op.OpCascade?
    ensures EntityColumnsExact(Run(t, ops))
    decreases |ops|
  {
    if ops != [] {
      CascadeStepKeepsColumns(t, ops[0]);
      CascadesKeepColumns(Step(t, ops[0]), ops[1..]);
    }
  }

  /** Activity first and cascades afterwards leave every entity column right. */
  lemma {:induction false} RunKeepsColumns(t: Tables, ops: seq<Op>)
    requires Exact(t) && EntitiesListed(t) && CascadesLast(ops)
    ensures EntityColumnsExact(Run(t, ops))
    decreases |ops|
  {
    if forall op | op in ops :: op.OpCascade? {
      ListedMakesColumnsExact(t);
      CascadesKeepColumns(t, ops);
    } else {
      StepKeepsExact(t, ops[0]);
      RunKeepsColumns(Step(t, ops[0]), ops[1..]);
    }
  }

  lemma EmptyIsExact()
    ensures Exact(EMPTY) && EntitiesListed(EMPTY)
  {
    forall k ensures ExactAt(EMPTY, k) && Section(EMPTY.subjects.entities, k) == RefEntities(EMPTY.ledger, k) {
      AbsentIsEmpty(EMPTY.ledger, k);
    }
  }

  /** Every run from empty tables: the stored counters of every subject are what the
      rebuild SELECTs would compute, a missing row meaning zeros. A hunter's entity
      count always; an activator's in every run whose cascades all come last. */
  lemma RunsAreExact(ops: seq<Op>, k: SubjectKey)
    ensures var t := Run(EMPTY, ops);
      var row := Row(t.subjects, k);
      var ref := RefAggregate(t.ledger, k);
      && row.qsoCount == ref.qsoCount
      && row.activationCount == ref.activationCount
      && row.uniqueCallsigns == ref.uniqueCallsigns
      && (k.category == HUNTER || CascadesLast(ops) ==> row == ref)
      && (k in t.subjects.aggregates <==> Present(t.ledger, k))
  {
    var t := Run(EMPTY, ops);
    EmptyIsExact();
    RunKeepsExact(EMPTY, ops);
    ExactRow(t, k);
    if CascadesLast(ops) {
      RunKeepsColumns(EMPTY, ops);
      assert EntityColumnExact(t, k);
    }
  }

  lemma ExactRow(t: Tables, k: SubjectKey)
    requires Exact(t)
    ensures var row := Row(t.subjects, k);
      var ref := RefAggregate(t.ledger, k);
      && row.qsoCount == ref.qsoCount
      && row.activationCount == ref.activationCount
      && row.uniqueCallsigns == ref.uniqueCallsigns
      && (k.category == HUNTER || EntitiesListed(t) ==> row == ref)
      && (k in t.subjects.aggregates <==> Present(t.ledger, k))
  {
    assert ExactAt(t, k);
    AgreeingRow(SubjectView(t.subjects, k), SubjectTruth(t.ledger, k));
  }

  lemma AgreeingRow(v: View, r: Truth)
    requires Agree(v, r)
    ensures r.joined == r.entities || v.entities == r.entities ==> v.row.uniqueEntities == |r.entities|
  {
    if r.joined == r.entities {
      assert v.entities == r.entities;
    }
  }

  /** The activation counters are exact in every run. */
  lemma RunsKeepCounters(ops: seq<Op>, a: Id)
    requires a in Run(EMPTY, ops).ledger.activations
    ensures var l := Run(EMPTY, ops).ledger;
      && l.activations[a].qsoCount == |ActivationQsos(l.qsos, a)|
      && l.activations[a].uniqueCallsigns == |WorkedCallsigns(l.qsos, ActivationQsos(l.qsos, a))|
      && l.activations[a].uniqueEntities == |WorkedEntities(l.qsos, ActivationQsos(l.qsos, a))|
  {
    EmptyIsExact();
    RunKeepsExact(EMPTY, ops);
    assert CountersExactAt(Run(EMPTY, ops).ledger, a);
  }

  // ------------------------------------------------ the activator's entity column

  lemma CountsMeet<T>(listed: set<T>, all: set<T>, x: T)
    requires listed <= all
    ensures |listed + {x}| == |all + {x}| <==> all - {x} <= listed
  {
    SubsetSize(listed + {x}, all + {x});
    if all - {x} <= listed {
      assert listed + {x} == all + {x};
    }
  }

  /** The column after an upsert for an activation at `entity`: exact if and only if
      every other entity the operator activated is still listed beforehand. */
  lemma ActivatorColumnAfterCreate(t: Tables, aid: Id, site: Site, startedAt: nat, expiresAt: Option<nat>)
    requires Exact(t) && aid !in t.ledger.activations
    ensures var k := SubjectKey(site.programme, site.operatorId, ACTIVATOR);
      EntityColumnExact(CreateActivation(t, aid, site, startedAt, expiresAt).value, k) <==>
      RefEntities(t.ledger, k) - {site.entityId} <= Section(t.subjects.entities, k)
  {
    var k := SubjectKey(site.programme, site.operatorId, ACTIVATOR);
    var u := CreateActivation(t, aid, site, startedAt, expiresAt).value;
    var before, truth := SubjectView(t.subjects, k), SubjectTruth(t.ledger, k);
    assert ExactAt(t, k);
    CreateTruth(t.ledger, u.ledger, aid, k);
    UpsertChangesOneView(t.subjects, Touch(k, 0, 1, None, Some(site.entityId)), k);
    assert SubjectView(u.subjects, k).row.uniqueEntities == |before.entities + {site.entityId}|;
    assert RefEntities(u.ledger, k) == SubjectTruth(u.ledger, k).entities == truth.entities + {site.entityId};
    CountsMeet(before.entities, truth.entities, site.entityId);
  }

  lemma ActivatorRowAfterQso(s: Subjects, site: Site, q: Qso)
    ensures var k := SubjectKey(site.programme, site.operatorId, ACTIVATOR);
      Row(ApplyQso(s, site, q), k).uniqueEntities == |Section(s.entities, k) + {site.entityId}|
  {
    var k := SubjectKey(site.programme, site.operatorId, ACTIVATOR);
    ApplyQsoView(s, site, q, k);
    assert SubjectView(ApplyQso(s, site, q), k).row.uniqueEntities == |Section(s.entities, k) + {site.entityId}|;
  }

  lemma ActivatedAfterQso(l: Ledger, m: Ledger, aid: Id, r: Record)
    requires aid in l.activations && Extends(l, m, r.deduplicationKey, ToQso(aid, l.activations[aid].site, r))
    ensures var site := l.activations[aid].site;
      var k := SubjectKey(site.programme, site.operatorId, ACTIVATOR);
      RefEntities(m, k) == RefEntities(l, k) == RefEntities(l, k) + {site.entityId}
  {
    var site := l.activations[aid].site;
    var k := SubjectKey(site.programme, site.operatorId, ACTIVATOR);
    TruthExtends(l, m, r.deduplicationKey, ToQso(aid, site, r), k);
    assert aid in OwnedActivations(l, k);
    assert site.entityId in RefEntities(l, k);
    assert SubjectTruth(m, k).entities == SubjectTruth(l, k).entities;
  }

  lemma ActivatorColumnAfterQso(t: Tables, aid: Id, r: Record)
    requires Exact(t) && aid in t.ledger.activations && r.deduplicationKey !in t.ledger.qsos
    ensures var site := t.ledger.activations[aid].site;
      var k := SubjectKey(site.programme, site.operatorId, ACTIVATOR);
      EntityColumnExact(StoreQso(t, aid, r), k) <==>
      RefEntities(t.ledger, k) - {site.entityId} <= Section(t.subjects.entities, k)
  {
    var site := t.ledger.activations[aid].site;
    var k := SubjectKey(site.programme, site.operatorId, ACTIVATOR);
    assert ExactAt(t, k);
    ActivatorRowAfterQso(t.subjects, site, ToQso(aid, site, r));
    ActivatedAfterQso(t.ledger, StoreQso(t, aid, r).ledger, aid, r);
    CountsMeet(Section(t.subjects.entities, k), RefEntities(t.ledger, k), site.entityId);
  }

  /** Right after a cascade that rebuilt the operator, "listed" means: some activation
      of the operator at that entity still has a non-VOID QSO. */
  lemma ListedAfterCascade(t: Tables, e: Id, k: SubjectKey, entity: Id)
    requires Exact(t) && k.category == ACTIVATOR && k.subject in Collected(t.ledger, e)
    ensures var u := Cascade(t, e);
      entity in Section(u.subjects.entities, k) <==>
      exists d :: d in u.ledger.qsos && Owns(u.ledger, k, u.ledger.qsos[d]) &&
                  u.ledger.activations[u.ledger.qsos[d].activationId].site.entityId == entity
  {
    var u := Cascade(t, e);
    CascadeView(t, e, k);
    assert Section(u.subjects.entities, k) == JoinedEntities(u.ledger, k);
  }

  lemma CreateForgets(u: Tables, b: Id, away: Site, start: nat, x: Id)
    requires Exact(u) && b !in u.ledger.activations && x != away.entityId
    requires var k := SubjectKey(away.programme, away.operatorId, ACTIVATOR);
      x in RefEntities(u.ledger, k) && x !in Section(u.subjects.entities, k)
    ensures !EntityColumnExact(CreateActivation(u, b, away, start, None).value,
                               SubjectKey(away.programme, away.operatorId, ACTIVATOR))
  {
    ActivatorColumnAfterCreate(u, b, away, start, None);
  }

  /** Where the column goes wrong: cascade the entity of any activation, and the
      operator's next activation elsewhere makes the column forget that entity, although
      the activation is still there and still counted as an activation. */
  lemma ActivatorColumnCanFail(t: Tables, a: Id, b: Id, home: Site, away: Site, start: nat)
    requires Exact(t) && a in t.ledger.activations && b !in t.ledger.activations
    requires t.ledger.activations[a].site == home && home.entityId != away.entityId
    requires home.programme == away.programme && home.operatorId == away.operatorId
    ensures !EntityColumnExact(CreateActivation(Cascade(t, home.entityId), b, away, start, None).value,
                               SubjectKey(home.programme, home.operatorId, ACTIVATOR))
  {
    CascadeKeepsExact(t, home.entityId);
    CascadeSites(t.ledger, home.entityId);
    ForgottenEntity(t, a, home);
    CreateForgets(Cascade(t, home.entityId), b, away, start, home.entityId);
  }

  /** An entity activated without any contact leaves the side table in its own cascade. */
  lemma ForgottenEntity(t: Tables, aid: Id, site: Site)
    requires Exact(t) && aid in t.ledger.activations && t.ledger.activations[aid].site == site
    ensures var k := SubjectKey(site.programme, site.operatorId, ACTIVATOR);
      var u := Cascade(t, site.entityId);
      && site.entityId in RefEntities(u.ledger, k)
      && site.entityId !in Section(u.subjects.entities, k)
  {
    var k, e := SubjectKey(site.programme, site.operatorId, ACTIVATOR), site.entityId;
    var u := Cascade(t, e);
    CascadeSites(t.ledger, e);
    assert aid in OwnedActivations(u.ledger, k);
    assert aid in ActivationsAt(t.ledger, e);
    assert site.operatorId in Collected(t.ledger, e);
    CascadeView(t, e, k);
    NothingDoomedTwice(t.ledger, e);
    forall d | d in OwnedQsos(u.ledger, k)
      ensures u.ledger.activations[u.ledger.qsos[d].activationId].site.entityId != e
    {
      assert d !in Doomed(u.ledger, e);
    }
  }
}
