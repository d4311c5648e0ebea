/** The subject tables are exact: over every run they hold what the rebuild SELECTs
    would compute from the ledger, except for one column, whose exact condition is
    given at the end. */
module Aggregates {
  import opened Wrappers
  import opened Ledger

  /** Foreign keys, and the columns copied from an activation onto its QSOs. */
  ghost predicate WellFormed(l: Ledger) {
    forall d | d in l.qsos ::
      && l.qsos[d].activationId in l.activations
      && l.qsos[d].programme == l.activations[l.qsos[d].activationId].site.programme
      && l.qsos[d].operatorId == l.activations[l.qsos[d].activationId].site.operatorId
  }

  ghost predicate CountersExact(l: Ledger) {
    forall a | a in l.activations :: CountersExactAt(l, a)
  }

  ghost predicate CountersExactAt(l: Ledger, a: Id)
    requires a in l.activations
  {
    l.activations[a] == WithCounters(l.activations[a], a, l.qsos, |ActivationQsos(l.qsos, a)|)
  }

  /** What the subject tables say about one subject; a missing row reads as zeros. */
  datatype View = View(has: bool, row: Aggregate, callsigns: set<string>, entities: set<Id>)

  ghost function SubjectView(s: Subjects, k: SubjectKey): View {
    View(k in s.aggregates, Row(s, k), Section(s.callsigns, k), Section(s.entities, k))
  }

  /** What the SELECTs say about the same subject. */
  datatype Truth = Truth(
    category: Category,
    qsos: set<string>,
    activations: set<Id>,
    callsigns: set<string>,
    entities: set<Id>,
    joined: set<Id>)

  ghost function SubjectTruth(l: Ledger, k: SubjectKey): Truth {
    Truth(k.category, OwnedQsos(l, k), OwnedActivations(l, k), RefCallsigns(l, k), RefEntities(l, k), JoinedEntities(l, k))
  }

  /** The entity column is only bracketed; for a hunter the two bounds coincide. */
  ghost predicate Agree(v: View, r: Truth) {
    && (v.has <==> if r.category == ACTIVATOR then r.activations != {} else r.qsos != {})
    && v.row.qsoCount == |r.qsos|
    && v.row.activationCount == |r.activations|
    && v.row.uniqueCallsigns == |r.callsigns|
    && v.callsigns == r.callsigns
    && |v.entities| <= v.row.uniqueEntities <= |r.entities|
    && r.joined <= v.entities <= r.entities
  }

  ghost predicate ExactAt(t: Tables, k: SubjectKey) {
    Agree(SubjectView(t.subjects, k), SubjectTruth(t.ledger, k))
  }

  ghost predicate Exact(t: Tables) {
    && WellFormed(t.ledger)
    && CountersExact(t.ledger)
    && forall k :: ExactAt(t, k)
  }

  /** No entity of an activator is missing from the side table. */
  ghost predicate EntitiesListed(t: Tables) {
    forall k :: Section(t.subjects.entities, k) == RefEntities(t.ledger, k)
  }

  // ------------------------------------------------ finite-set bookkeeping

  lemma SubsetSize<T>(a: set<T>, b: set<T>)
    requires a <= b
    ensures |a| <= |b|
    ensures |a| == |b| ==> a == b
  {
    assert b == a + (b - a);
    if |a| == |b| {
      assert |b - a| == 0;
    }
  }

  lemma SectionListed<T>(table: set<(SubjectKey, T)>, at: SubjectKey, v: Option<T>, k: SubjectKey)
    ensures k != at || v.None? ==> Section(Listed(table, at, v), k) == Section(table, k)
    ensures k == at && v.Some? ==> Section(Listed(table, at, v), k) == Section(table, k) + {v.value}
  {
    if v.Some? {
      var wider := Listed(table, at, v);
      forall x ensures x in Section(wider, k) <==> x in Section(table, k) || (k == at && x == v.value) {
        assert x in Section(wider, k) <==> (k, x) in wider;
        assert x in Section(table, k) <==> (k, x) in table;
      }
    }
  }

  // ------------------------------------------------ what one upsert changes

  ghost function With<T>(s: set<T>, x: Option<T>): set<T> {
    if x.Some? then s + {x.value} else s
  }

  ghost function UpsertedView(v: View, t: Touch): View {
    var callsigns, entities := With(v.callsigns, t.callsign), With(v.entities, t.entityId);
    View(true,
         Aggregate(v.row.qsoCount + t.qsoDelta, v.row.activationCount + t.activationDelta, |callsigns|, |entities|),
         callsigns, entities)
  }

  /** An upsert changes the view of its own subject and of no other. */
  lemma UpsertChangesOneView(s: Subjects, t: Touch, k: SubjectKey)
    ensures SubjectView(Upsert(s, t), k) ==
            if k == t.key then UpsertedView(SubjectView(s, k), t) else SubjectView(s, k)
  {
    SectionListed(s.callsigns, t.key, t.callsign, k);
    SectionListed(s.entities, t.key, t.entityId, k);
  }

  // ------------------------------------------------ what one new QSO changes in the SELECTs

  ghost predicate SameSites(l: Ledger, m: Ledger) {
    && l.activations.Keys == m.activations.Keys
    && forall a | a in l.activations :: l.activations[a].site == m.activations[a].site
  }

  lemma SameSitesSameOwners(l: Ledger, m: Ledger, k: SubjectKey)
    requires SameSites(l, m)
    ensures OwnedActivations(m, k) == OwnedActivations(l, k)
    ensures forall q :: Owns(m, k, q) == Owns(l, k, q)
  {
  }

  /** The rows a QSO counts for are exactly its operator's and its hunter's. */
  lemma Owners(l: Ledger, aid: Id, r: Record, k: SubjectKey)
    requires aid in l.activations
    ensures var site := l.activations[aid].site;
      Owns(l, k, ToQso(aid, site, r)) <==>
        || k == SubjectKey(site.programme, site.operatorId, ACTIVATOR)
        || (r.hunterId.Some? && k == SubjectKey(site.programme, r.hunterId.value, HUNTER))
  {
  }

  ghost predicate Extends(l: Ledger, m: Ledger, d: string, q: Qso) {
    && SameSites(l, m)
    && d !in l.qsos
    && m.qsos == l.qsos[d := q]
  }

  lemma OwnedExtends(l: Ledger, m: Ledger, d: string, q: Qso, k: SubjectKey)
    requires Extends(l, m, d, q)
    ensures Owns(l, k, q) ==> OwnedQsos(m, k) == OwnedQsos(l, k) + {d}
    ensures !Owns(l, k, q) ==> OwnedQsos(m, k) == OwnedQsos(l, k)
  {
    SameSitesSameOwners(l, m, k);
    forall x ensures x in OwnedQsos(m, k) <==> x in OwnedQsos(l, k) || (x == d && Owns(l, k, q)) {
    }
  }

  lemma ProjectionsFrame(qsos: map<string, Qso>, d: string, q: Qso, keys: set<string>)
    requires keys <= qsos.Keys && d !in qsos
    ensures WorkedCallsigns(qsos[d := q], keys) == WorkedCallsigns(qsos, keys)
    ensures WorkedEntities(qsos[d := q], keys) == WorkedEntities(qsos, keys)
    ensures WorkedCallsigns(qsos[d := q], keys + {d}) == WorkedCallsigns(qsos, keys) + {q.workedCallsign}
    ensures WorkedEntities(qsos[d := q], keys + {d}) ==
            WorkedEntities(qsos, keys) + (if q.workedEntityId.Some? then {q.workedEntityId.value} else {})
  {
    var wider := qsos[d := q];
    assert forall x | x in keys :: wider[x] == qsos[x];
    forall c ensures c in WorkedCallsigns(wider, keys + {d}) <==> c in WorkedCallsigns(qsos, keys) || c == q.workedCallsign {
      if c in WorkedCallsigns(qsos, keys) {
        var x :| x in keys && qsos[x].workedCallsign == c;
        assert x in keys + {d} && wider[x].workedCallsign == c;
      }
      assert d in keys + {d} && wider[d].workedCallsign == q.workedCallsign;
    }
    forall e ensures e in WorkedEntities(wider, keys + {d}) <==> e in WorkedEntities(qsos, keys) || q.workedEntityId == Some(e) {
      if e in WorkedEntities(qsos, keys) {
        var x :| x in keys && qsos[x].workedEntityId == Some(e);
        assert x in keys + {d} && wider[x].workedEntityId == Some(e);
      }
      if q.workedEntityId == Some(e) {
        assert d in keys + {d} && wider[d].workedEntityId == Some(e);
      }
    }
  }

  /** What the SELECTs say about the owner of one more QSO. */
  ghost function GrownTruth(r: Truth, d: string, q: Qso, site: Site): Truth {
    r.(qsos := r.qsos + {d},
       callsigns := r.callsigns + {q.workedCallsign},
       entities := if r.category == HUNTER then With(r.entities, q.workedEntityId) else r.entities,
       joined := With(r.joined, if r.category == HUNTER then q.workedEntityId else Some(site.entityId)))
  }

  /** One more QSO changes the truth of the subjects that own it and of no other. */
  lemma TruthExtends(l: Ledger, m: Ledger, d: string, q: Qso, k: SubjectKey)
    requires Extends(l, m, d, q) && q.activationId in l.activations
    ensures SubjectTruth(m, k) ==
      if Owns(l, k, q) then GrownTruth(SubjectTruth(l, k), d, q, l.activations[q.activationId].site)
      else SubjectTruth(l, k)
  {
    SameSitesSameOwners(l, m, k);
    OwnedExtends(l, m, d, q, k);
    ProjectionsFrame(l.qsos, d, q, OwnedQsos(l, k));
    if k.category == ACTIVATOR {
      assert RefEntities(m, k) == RefEntities(l, k);
      JoinedExtends(l, m, d, q, k);
    }
  }

  lemma JoinedExtends(l: Ledger, m: Ledger, d: string, q: Qso, k: SubjectKey)
    requires Extends(l, m, d, q) && k.category == ACTIVATOR
    ensures Owns(l, k, q) ==> JoinedEntities(m, k) == JoinedEntities(l, k) + {l.activations[q.activationId].site.entityId}
    ensures !Owns(l, k, q) ==> JoinedEntities(m, k) == JoinedEntities(l, k)
  {
    OwnedExtends(l, m, d, q, k);
    forall e
      ensures e in JoinedEntities(m, k) <==>
        e in JoinedEntities(l, k) || (Owns(l, k, q) && e == l.activations[q.activationId].site.entityId)
    {
      if e in JoinedEntities(l, k) {
        var x :| x in OwnedQsos(l, k) && l.activations[l.qsos[x].activationId].site.entityId == e;
        assert x in OwnedQsos(m, k) && m.activations[m.qsos[x].activationId].site.entityId == e;
      }
      if Owns(l, k, q) && e == l.activations[q.activationId].site.entityId {
        assert d in OwnedQsos(m, k) && m.activations[m.qsos[d].activationId].site.entityId == e;
      }
      if e in JoinedEntities(m, k) {
        var x :| x in OwnedQsos(m, k) && m.activations[m.qsos[x].activationId].site.entityId == e;
        if x != d {
          assert x in OwnedQsos(l, k) && l.activations[l.qsos[x].activationId].site.entityId == e;
        }
      }
    }
  }

  // ------------------------------------------------ every statement keeps the index exact

  lemma AgreeGrows(v: View, r: Truth, touch: Touch, d: string, q: Qso, site: Site)
    requires Agree(v, r) && d !in r.qsos
    requires touch.qsoDelta == 1 && touch.activationDelta == 0 && touch.callsign == Some(q.workedCallsign)
    requires r.category == ACTIVATOR ==>
      touch.entityId == Some(site.entityId) && site.entityId in r.entities && r.activations != {}
    requires r.category == HUNTER ==> touch.entityId == q.workedEntityId && r.joined == r.entities
    ensures Agree(UpsertedView(v, touch), GrownTruth(r, d, q, site))
    ensures v.entities == r.entities ==> UpsertedView(v, touch).entities == GrownTruth(r, d, q, site).entities
  {
    var grown, seen := GrownTruth(r, d, q, site), UpsertedView(v, touch);
    assert |grown.qsos| == |r.qsos| + 1;
    assert r.joined <= v.entities <= r.entities;
    if r.category == HUNTER {
      WithMonotone(r.joined, v.entities, touch.entityId);
      WithMonotone(v.entities, r.entities, touch.entityId);
      assert grown.joined == With(r.joined, touch.entityId) && grown.entities == With(r.entities, touch.entityId);
    } else {
      WithMonotone(r.joined, v.entities, touch.entityId);
      WithMonotone(v.entities, r.entities, touch.entityId);
      assert grown.joined == With(r.joined, touch.entityId) && With(r.entities, touch.entityId) == r.entities;
    }
    assert grown.joined <= seen.entities <= grown.entities;
    SubsetSize(seen.entities, grown.entities);
  }

  lemma WithMonotone<T>(a: set<T>, b: set<T>, x: Option<T>)
    requires a <= b
    ensures With(a, x) <= With(b, x)
  {
  }

  lemma StoreQsoAt(t: Tables, aid: Id, r: Record, k: SubjectKey)
    requires aid in t.ledger.activations && r.deduplicationKey !in t.ledger.qsos
    requires ExactAt(t, k)
    ensures ExactAt(StoreQso(t, aid, r), k)
    ensures Section(t.subjects.entities, k) == RefEntities(t.ledger, k) ==>
            Section(StoreQso(t, aid, r).subjects.entities, k) == RefEntities(StoreQso(t, aid, r).ledger, k)
  {
    var l, site := t.ledger, t.ledger.activations[aid].site;
    var d, q := r.deduplicationKey, ToQso(aid, site, r);
    var m := StoreQso(t, aid, r).ledger;
    var v, truth := SubjectView(t.subjects, k), SubjectTruth(l, k);
    Owners(l, aid, r, k);
    TruthExtends(l, m, d, q, k);
    var first := ActivatorTouch(site, q);
    UpsertChangesOneView(t.subjects, first, k);
    if q.hunterId.Some? {
      UpsertChangesOneView(Upsert(t.subjects, first), HunterTouch(site, q), k);
    }
    if k == first.key {
      assert aid in OwnedActivations(l, k);
      assert site.entityId in RefEntities(l, k);
      AgreeGrows(v, truth, first, d, q, site);
    } else if q.hunterId.Some? && k == HunterTouch(site, q).key {
      AgreeGrows(v, truth, HunterTouch(site, q), d, q, site);
    }
  }

  lemma CountersAfterStore(l: Ledger, m: Ledger, d: string, q: Qso, a: Id)
    requires d !in l.qsos && m.qsos == l.qsos[d := q] && q.status != Void
    ensures ActivationQsos(m.qsos, a) == ActivationQsos(l.qsos, a) + (if a == q.activationId then {d} else {})
    ensures a != q.activationId ==>
      && WorkedCallsigns(m.qsos, ActivationQsos(m.qsos, a)) == WorkedCallsigns(l.qsos, ActivationQsos(l.qsos, a))
      && WorkedEntities(m.qsos, ActivationQsos(m.qsos, a)) == WorkedEntities(l.qsos, ActivationQsos(l.qsos, a))
  {
    ProjectionsFrame(l.qsos, d, q, ActivationQsos(l.qsos, a));
  }

  lemma StoreQsoCounters(t: Tables, aid: Id, r: Record, a: Id)
    requires aid in t.ledger.activations && r.deduplicationKey !in t.ledger.qsos
    requires a in t.ledger.activations && CountersExactAt(t.ledger, a)
    ensures CountersExactAt(StoreQso(t, aid, r).ledger, a)
  {
    var l, m := t.ledger, StoreQso(t, aid, r).ledger;
    var d, q := r.deduplicationKey, ToQso(aid, l.activations[aid].site, r);
    CountersAfterStore(l, m, d, q, a);
    if a == aid {
      assert d !in ActivationQsos(l.qsos, a);
      assert |ActivationQsos(m.qsos, a)| == |ActivationQsos(l.qsos, a)| + 1;
    } else {
      assert m.activations[a] == l.activations[a];
    }
  }

  /** Storing one QSO keeps the index exact, and keeps every entity listed if it was. */
  lemma StoreQsoKeepsExact(t: Tables, aid: Id, r: Record)
    requires aid in t.ledger.activations && Exact(t)
    ensures Exact(StoreQso(t, aid, r))
    ensures EntitiesListed(t) ==> EntitiesListed(StoreQso(t, aid, r))
  {
    if r.deduplicationKey !in t.ledger.qsos {
      forall a | a in t.ledger.activations ensures CountersExactAt(StoreQso(t, aid, r).ledger, a) {
        assert CountersExactAt(t.ledger, a);
        StoreQsoCounters(t, aid, r, a);
      }
      forall k
        ensures ExactAt(StoreQso(t, aid, r), k)
        ensures EntitiesListed(t) ==>
          Section(StoreQso(t, aid, r).subjects.entities, k) == RefEntities(StoreQso(t, aid, r).ledger, k)
      {
        assert ExactAt(t, k);
        StoreQsoAt(t, aid, r, k);
      }
    }
  }

  // ------------------------------------------------ activations

  lemma CreateKeepsExact(t: Tables, aid: Id, site: Site, startedAt: nat, expiresAt: Option<nat>)
    requires Exact(t) && aid !in t.ledger.activations
    ensures Exact(CreateActivation(t, aid, site, startedAt, expiresAt).value)
    ensures EntitiesListed(t) ==> EntitiesListed(CreateActivation(t, aid, site, startedAt, expiresAt).value)
  {
    var u := CreateActivation(t, aid, site, startedAt, expiresAt).value;
    CreateLedger(t.ledger, u.ledger, aid);
    forall k
      ensures ExactAt(u, k)
      ensures EntitiesListed(t) ==> Section(u.subjects.entities, k) == RefEntities(u.ledger, k)
    {
      assert ExactAt(t, k);
      CreateAt(t, aid, site, startedAt, expiresAt, k);
    }
  }

  ghost predicate Adds(l: Ledger, m: Ledger, aid: Id) {
    && aid !in l.activations
    && aid in m.activations
    && m.activations == l.activations[aid := m.activations[aid]]
    && m.qsos == l.qsos
  }

  lemma CreateLedger(l: Ledger, m: Ledger, aid: Id)
    requires WellFormed(l) && CountersExact(l) && Adds(l, m, aid)
    requires m.activations[aid].qsoCount == m.activations[aid].uniqueCallsigns == m.activations[aid].uniqueEntities == 0
    ensures WellFormed(m) && CountersExact(m)
  {
    assert ActivationQsos(m.qsos, aid) == {};
    forall a | a in m.activations ensures CountersExactAt(m, a) {
      if a != aid {
        assert CountersExactAt(l, a);
      }
    }
  }

  lemma CreateAt(t: Tables, aid: Id, site: Site, startedAt: nat, expiresAt: Option<nat>, k: SubjectKey)
    requires WellFormed(t.ledger) && ExactAt(t, k) && aid !in t.ledger.activations
    ensures var u := CreateActivation(t, aid, site, startedAt, expiresAt).value;
      && ExactAt(u, k)
      && (Section(t.subjects.entities, k) == RefEntities(t.ledger, k) ==>
            Section(u.subjects.entities, k) == RefEntities(u.ledger, k))
  {
    var l, u := t.ledger, CreateActivation(t, aid, site, startedAt, expiresAt).value;
    var key := SubjectKey(site.programme, site.operatorId, ACTIVATOR);
    CreateTruth(l, u.ledger, aid, k);
    UpsertChangesOneView(t.subjects, Touch(key, 0, 1, None, Some(site.entityId)), k);
    if k == key {
      var r := SubjectTruth(u.ledger, k);
      assert aid in r.activations && aid !in OwnedActivations(l, k);
      SubsetSize(SubjectView(u.subjects, k).entities, r.entities);
    }
  }

  lemma CreateTruth(l: Ledger, m: Ledger, aid: Id, k: SubjectKey)
    requires WellFormed(l) && Adds(l, m, aid)
    ensures var site := m.activations[aid].site;
      var r := SubjectTruth(l, k);
      SubjectTruth(m, k) ==
        if k == SubjectKey(site.programme, site.operatorId, ACTIVATOR)
        then r.(activations := r.activations + {aid}, entities := r.entities + {site.entityId})
        else r
  {
    var site := m.activations[aid].site;
    var mine := k == SubjectKey(site.programme, site.operatorId, ACTIVATOR);
    assert OwnedActivations(m, k) == OwnedActivations(l, k) + (if mine then {aid} else {});
    forall d | d in l.qsos ensures Owns(m, k, l.qsos[d]) == Owns(l, k, l.qsos[d]) {
    }
    assert OwnedQsos(m, k) == OwnedQsos(l, k);
    if k.category == ACTIVATOR {
      forall e ensures e in RefEntities(m, k) <==> e in RefEntities(l, k) || (mine && e == site.entityId) {
        if e in RefEntities(l, k) {
          var a :| a in OwnedActivations(l, k) && l.activations[a].site.entityId == e;
          assert a in OwnedActivations(m, k) && m.activations[a].site.entityId == e;
        }
        if mine && e == site.entityId {
          assert aid in OwnedActivations(m, k);
        }
      }
    }
  }

  lemma CloseKeepsExact(t: Tables, aid: Id, valid: bool)
    requires Exact(t) && aid in t.ledger.activations
    ensures Exact(CloseActivation(t, aid, valid).value)
    ensures EntitiesListed(t) ==> EntitiesListed(CloseActivation(t, aid, valid).value)
  {
    var u := CloseActivation(t, aid, valid).value;
    forall a | a in u.ledger.activations ensures CountersExactAt(u.ledger, a) {
      assert CountersExactAt(t.ledger, a);
    }
    forall k
      ensures ExactAt(u, k)
      ensures RefEntities(u.ledger, k) == RefEntities(t.ledger, k)
    {
      assert ExactAt(t, k);
      SameQsosSameTruth(t.ledger, u.ledger, k);
    }
  }

  lemma SameQsosSameTruth(l: Ledger, m: Ledger, k: SubjectKey)
    requires SameSites(l, m) && m.qsos == l.qsos
    ensures SubjectTruth(m, k) == SubjectTruth(l, k)
  {
    SameSitesSameOwners(l, m, k);
    assert OwnedQsos(m, k) == OwnedQsos(l, k);
  }
}
