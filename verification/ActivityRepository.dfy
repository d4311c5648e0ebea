/** The repository methods that maintain the participation statistics, statement by
    statement and loop by loop, proved against the table functions of Ledger. */
module ActivityRepositories {
  import opened Wrappers
  import opened Ledger
  import Spec = Ledger
  import opened Cascades
  import AwardQueue

  datatype Impact = Impact(qsoCount: nat, activationCount: nat)

  // ------------------------------------------------ the award jobs of a cascade

  lemma OffersNothing(jobs: AwardQueue.Jobs, e: Id, subjects: set<Id>)
    ensures AwardQueue.Offered(jobs, AwardQueue.CascadeOffers(e, {}, subjects)) == jobs
  {
  }

  lemma OneProgrammeMore(e: Id, programmes: set<Id>, subjects: set<Id>, p: Id)
    ensures var some, more := AwardQueue.CascadeOffers(e, programmes, subjects), AwardQueue.CascadeOffers(e, programmes + {p}, subjects);
      more == if p == "" then some
              else some[AwardQueue.OfCascade(e, p) := AwardQueue.AwardJob(p, subjects, AwardQueue.Waiting)]
  {
    var some, more := AwardQueue.CascadeOffers(e, programmes, subjects), AwardQueue.CascadeOffers(e, programmes + {p}, subjects);
    forall k ensures k in more <==> k in some || (p != "" && k == AwardQueue.OfCascade(e, p)) {
      OfferedFor(e, programmes, subjects, k);
      OfferedFor(e, programmes + {p}, subjects, k);
    }
  }

  lemma OfferedFor(e: Id, programmes: set<Id>, subjects: set<Id>, k: AwardQueue.JobKey)
    ensures k in AwardQueue.CascadeOffers(e, programmes, subjects) <==>
            (k.OfCascade? && k.entity == e && k.programme in programmes && k.programme != "")
  {
  }

  lemma MergeOne<K, V>(before: map<K, V>, some: map<K, V>, k: K, v: V)
    requires k in some ==> some[k] == v
    ensures some[k := v] + before == if k in some + before then some + before else (some + before)[k := v]
  {
  }

  lemma OffersOneMore(jobs: AwardQueue.Jobs, e: Id, programmes: set<Id>, subjects: set<Id>, p: Id)
    ensures var some := AwardQueue.Offered(jobs, AwardQueue.CascadeOffers(e, programmes, subjects));
      AwardQueue.Offered(jobs, AwardQueue.CascadeOffers(e, programmes + {p}, subjects)) ==
      if p == "" then some else WithJob(some, AwardQueue.OfCascade(e, p), p, subjects)
  {
    OneProgrammeMore(e, programmes, subjects, p);
    if p != "" {
      MergeOne(jobs, AwardQueue.CascadeOffers(e, programmes, subjects), AwardQueue.OfCascade(e, p),
               AwardQueue.AwardJob(p, subjects, AwardQueue.Waiting));
    }
  }

  /** `_job`: a known key keeps the job it has. */
  function WithJob(jobs: AwardQueue.Jobs, key: AwardQueue.JobKey, programme: Id, subjects: set<Id>): AwardQueue.Jobs {
    if key in jobs then jobs else jobs[key := AwardQueue.AwardJob(programme, subjects, AwardQueue.Waiting)]
  }

  lemma OneIsOffered(jobs: AwardQueue.Jobs, key: AwardQueue.JobKey, programme: Id, subjects: set<Id>)
    ensures WithJob(jobs, key, programme, subjects) ==
            AwardQueue.Offered(jobs, map[key := AwardQueue.AwardJob(programme, subjects, AwardQueue.Waiting)])
  {
  }

  /** The columns of a new QSO row, one by one. */
  ghost function NewQso(aid: Id, site: Site, record: Record): Qso {
    Qso(activationId := aid, programme := site.programme, operatorId := site.operatorId,
        hunterId := record.hunterId, workedCallsign := record.workedCallsign, workedEntityId := record.workedEntityId,
        occurredAt := record.occurredAt, band := record.band, mode := record.mode, status := Valid)
  }

  lemma BatchOffersOne(t: Tables, recorded: nat, jobs: AwardQueue.Jobs, aid: Id, records: seq<Record>)
    requires InsertBatch(t, aid, records).Success?
    ensures var site := t.ledger.activations[aid].site;
      var stored := StoredKeys(t.ledger.qsos, aid, site, records);
      && (stored != [] ==> records != [])
      && AwardQueue.Offers(recorded, t, OpBatch(aid, records)) ==
         (if stored == [] then map[]
          else map[AwardQueue.OfBatch(aid, records[0].deduplicationKey) :=
                   AwardQueue.AwardJob(site.programme, {site.operatorId} + AwardQueue.Hunters(records), AwardQueue.Waiting)])
  {
  }

  lemma CascadeShrinks(t: Tables, e: Id)
    ensures |t.ledger.qsos| == |Step(t, OpCascade(e)).ledger.qsos| + |Doomed(t.ledger, e)|
  {
    QsosSplit(t.ledger, e);
  }

  /** The operators and hunters of some QSO rows. */
  ghost function Parties(l: Ledger, keys: set<string>): set<Id>
    requires keys <= l.qsos.Keys
  {
    (set d | d in keys :: l.qsos[d].operatorId) + (set d | d in keys && l.qsos[d].hunterId.Some? :: l.qsos[d].hunterId.value)
  }

  /** The activations of some QSO rows. */
  ghost function Sites(l: Ledger, keys: set<string>): set<Id>
    requires keys <= l.qsos.Keys
  {
    set d | d in keys :: l.qsos[d].activationId
  }

  lemma OneRowMore(l: Ledger, at: set<Id>, keys: set<string>, d: string)
    requires at <= l.activations.Keys && keys <= l.qsos.Keys && d in l.qsos
    ensures AwardQueue.Programmes(l, at, keys + {d}) == AwardQueue.Programmes(l, at, keys) + {l.qsos[d].programme}
    ensures Sites(l, keys + {d}) == Sites(l, keys) + {l.qsos[d].activationId}
    ensures Parties(l, keys + {d}) == Parties(l, keys) + {l.qsos[d].operatorId} +
            (if l.qsos[d].hunterId.Some? then {l.qsos[d].hunterId.value} else {})
  {
    assert forall x :: x in keys + {d} <==> x in keys || x == d;
  }

  lemma OneLess<T>(all: set<T>, rest: set<T>, x: T)
    requires x in rest
    ensures |all - (rest - {x})| == |all - rest| + (if x in all then 1 else 0)
  {
    assert all - (rest - {x}) == (all - rest) + (if x in all then {x} else {});
  }

  class ActivityRepository {
    var activations: map<Id, Activation>
    var qsos: map<string, Qso>
    var aggregates: map<SubjectKey, Aggregate>
    var subjectCallsigns: set<(SubjectKey, string)>
    var subjectEntities: set<(SubjectKey, Id)>
    /** The award jobs, the number of QSO rows written so far, and the responses kept for
        the retries of a cascade. */
    var jobs: AwardQueue.Jobs
    var recorded: nat
    var responses: map<string, Impact>

    ghost function State(): Tables
      reads this
    {
      Tables(Ledger(activations, qsos), Subjects(aggregates, subjectCallsigns, subjectEntities))
    }

    ghost function Queue(): AwardQueue.State
      reads this
    {
      AwardQueue.State(State(), jobs, recorded)
    }

    constructor ()
      ensures Queue() == AwardQueue.START && responses == map[]
      ensures State() == EMPTY && jobs == map[] && recorded == 0
    {
      jobs, recorded, responses := map[], 0, map[];
      activations, qsos := map[], map[];
      aggregates, subjectCallsigns, subjectEntities := map[], {}, {};
    }

    method UpsertSubject(t: Touch)
      modifies this`aggregates, this`subjectCallsigns, this`subjectEntities
      ensures State().subjects == Upsert(old(State().subjects), t)
    {
      var row := if t.key in aggregates then aggregates[t.key] else Aggregate(0, 0, 0, 0);
      aggregates := aggregates[t.key := row.(qsoCount := row.qsoCount + t.qsoDelta,
                                             activationCount := row.activationCount + t.activationDelta)];
      if t.callsign.Some? {
        subjectCallsigns := subjectCallsigns + {(t.key, t.callsign.value)};
      }
      if t.entityId.Some? {
        subjectEntities := subjectEntities + {(t.key, t.entityId.value)};
      }
      row := aggregates[t.key];
      aggregates := aggregates[t.key := row.(uniqueCallsigns := |Section(subjectCallsigns, t.key)|,
                                             uniqueEntities := |Section(subjectEntities, t.key)|)];
    }

    method CreateActivation(aid: Id, site: Site, startedAt: nat, expiresAt: Option<nat>) returns (r: Result<Activation, Error>)
      modifies this`activations, this`qsos, this`aggregates, this`subjectCallsigns, this`subjectEntities
      ensures State() == Step(old(State()), OpCreate(aid, site, startedAt, expiresAt))
      ensures Queue() == AwardQueue.After(old(Queue()), AwardQueue.Records(OpCreate(aid, site, startedAt, expiresAt)))
      ensures r.Success? <==> aid !in old(activations)
      ensures r.Success? ==> r.value == Activation(site, startedAt, expiresAt, Open, 0, 0, 0) && activations == old(activations)[aid := r.value]
    {
      if aid in activations {
        return Failure(DuplicateId);
      }
      var a := Activation(site, startedAt, expiresAt, Open, 0, 0, 0);
      activations := activations[aid := a];
      UpsertSubject(Touch(SubjectKey(site.programme, site.operatorId, ACTIVATOR), 0, 1, None, Some(site.entityId)));
      return Success(a);
    }

    /** The upserts for one stored QSO. */
    method CountQso(site: Site, q: Qso)
      modifies this`aggregates, this`subjectCallsigns, this`subjectEntities
      ensures State().subjects == ApplyQso(old(State().subjects), site, q)
    {
      UpsertSubject(ActivatorTouch(site, q));
      if q.hunterId.Some? {
        UpsertSubject(HunterTouch(site, q));
      }
    }

    method QueueJob(key: AwardQueue.JobKey, programme: Id, subjects: set<Id>)
      modifies this`jobs
      ensures jobs == AwardQueue.Offered(old(jobs), map[key := AwardQueue.AwardJob(programme, subjects, AwardQueue.Waiting)])
    {
      OneIsOffered(jobs, key, programme, subjects);
      if key !in jobs {
        jobs := jobs[key := AwardQueue.AwardJob(programme, subjects, AwardQueue.Waiting)];
      }
    }

    /** Returns whether the contact was a duplicate. */
    method InsertQso(aid: Id, record: Record) returns (r: Result<bool, Error>)
      modifies this`activations, this`qsos, this`aggregates, this`subjectCallsigns, this`subjectEntities, this`jobs, this`recorded
      ensures State() == Step(old(State()), OpInsert(aid, record))
      ensures Queue() == AwardQueue.After(old(Queue()), AwardQueue.Records(OpInsert(aid, record)))
      ensures r.Success? <==> Spec.InsertQso(old(State()), aid, record).Success?
      ensures r.Success? ==> r.value == (record.deduplicationKey in old(qsos)) && record.deduplicationKey in qsos
      ensures r == Failure(MissingActivation) <==> aid !in old(activations)
      ensures r == Failure(NotOpen) <==> aid in old(activations) && old(activations)[aid].status != Open
      ensures r == Failure(OutsideWindow) <==>
        aid in old(activations) && old(activations)[aid].status == Open &&
        (record.occurredAt < old(activations)[aid].startedAt ||
         (old(activations)[aid].expiresAt.Some? && old(activations)[aid].expiresAt.value < record.occurredAt))
      ensures r == Success(false) ==>
        qsos == old(qsos)[record.deduplicationKey := NewQso(aid, old(activations)[aid].site, record)]
      ensures r != Success(false) ==> qsos == old(qsos)
      ensures recorded == old(recorded) + (if r == Success(false) then 1 else 0)
    {
      if aid !in activations {
        return Failure(MissingActivation);
      }
      var a := activations[aid];
      if a.status != Open {
        return Failure(NotOpen);
      }
      if record.occurredAt < a.startedAt || (a.expiresAt.Some? && record.occurredAt > a.expiresAt.value) {
        return Failure(OutsideWindow);
      }
      var duplicate := record.deduplicationKey in qsos;
      if !duplicate {
        StoreNew(aid, record);
        QueueJob(AwardQueue.OfQso(recorded), a.site.programme, {a.site.operatorId} + AwardQueue.HunterSet(record.hunterId));
        recorded := recorded + 1;
      }
      return Success(duplicate);
    }

    /** The row of a new contact, the upserts for it, and the counters of its activation. */
    method StoreNew(aid: Id, record: Record)
      requires aid in activations && record.deduplicationKey !in qsos
      modifies this`activations, this`qsos, this`aggregates, this`subjectCallsigns, this`subjectEntities
      ensures State() == StoreQso(old(State()), aid, record) && record.deduplicationKey in qsos
    {
      var a := activations[aid];
      var q := ToQso(aid, a.site, record);
      qsos := qsos[record.deduplicationKey := q];
      CountQso(a.site, q);
      activations := activations[aid := WithCounters(a, aid, qsos, a.qsoCount + 1)];
    }

    method WindowRefuses(a: Activation, records: seq<Record>) returns (refused: bool)
      ensures refused <==> exists i :: 0 <= i < |records| && !InWindow(a, records[i])
    {
      for i := 0 to |records|
        invariant forall j :: 0 <= j < i ==> InWindow(a, records[j])
      {
        if records[i].occurredAt < a.startedAt || (a.expiresAt.Some? && records[i].occurredAt > a.expiresAt.value) {
          assert !InWindow(a, records[i]);
          return true;
        }
      }
      return false;
    }

    /** Returns the deduplication keys of the rows that were stored. */
    method InsertQsoBatch(aid: Id, records: seq<Record>) returns (r: Result<seq<string>, Error>)
      modifies this`activations, this`qsos, this`aggregates, this`subjectCallsigns, this`subjectEntities, this`jobs, this`recorded
      ensures State() == Step(old(State()), OpBatch(aid, records))
      ensures Queue() == AwardQueue.After(old(Queue()), AwardQueue.Records(OpBatch(aid, records)))
      ensures r.Success? <==> InsertBatch(old(State()), aid, records).Success?
      ensures r.Success? ==> r.value == StoredKeys(old(qsos), aid, old(activations)[aid].site, records)
      ensures r == Failure(MissingActivation) <==> aid !in old(activations)
      ensures r == Failure(NotOpen) <==> aid in old(activations) && old(activations)[aid].status != Open
      ensures r == Failure(OutsideWindow) <==>
        aid in old(activations) && old(activations)[aid].status == Open &&
        exists i :: 0 <= i < |records| &&
          (records[i].occurredAt < old(activations)[aid].startedAt ||
           (old(activations)[aid].expiresAt.Some? && old(activations)[aid].expiresAt.value < records[i].occurredAt))
      ensures r.Failure? ==> qsos == old(qsos)
      ensures recorded == old(recorded) + (if r.Success? then |r.value| else 0)
    {
      if aid !in activations {
        return Failure(MissingActivation);
      }
      var a := activations[aid];
      if a.status != Open {
        return Failure(NotOpen);
      }
      var refused := WindowRefuses(a, records);
      if refused {
        return Failure(OutsideWindow);
      }
      var stored := IngestBatch(aid, records);
      return Success(stored);
    }

    /** An accepted batch: its rows, and its job if there are any. */
    method IngestBatch(aid: Id, records: seq<Record>) returns (stored: seq<string>)
      requires InsertBatch(State(), aid, records).Success?
      modifies this`activations, this`qsos, this`aggregates, this`subjectCallsigns, this`subjectEntities, this`jobs, this`recorded
      ensures State() == StoreBatch(old(State()), aid, records)
      ensures stored == StoredKeys(old(qsos), aid, old(activations)[aid].site, records)
      ensures recorded == old(recorded) + |stored|
      ensures jobs == AwardQueue.Offered(old(jobs), AwardQueue.Offers(old(recorded), old(State()), OpBatch(aid, records)))
    {
      var site := activations[aid].site;
      BatchOffersOne(State(), recorded, jobs, aid, records);
      stored := IngestRows(aid, records);
      if stored != [] {
        QueueJob(AwardQueue.OfBatch(aid, records[0].deduplicationKey), site.programme,
                 {site.operatorId} + AwardQueue.Hunters(records));
      }
      recorded := recorded + |stored|;
    }

    method IngestRows(aid: Id, records: seq<Record>) returns (stored: seq<string>)
      requires aid in activations
      modifies this`activations, this`qsos, this`aggregates, this`subjectCallsigns, this`subjectEntities
      ensures State() == StoreBatch(old(State()), aid, records)
      ensures stored == StoredKeys(old(qsos), aid, old(activations)[aid].site, records)
    {
      var a := activations[aid];
      stored := StageRows(aid, a.site, records);
      CountStored(a.site, stored);
      if stored != [] {
        activations := activations[aid := WithCounters(a, aid, qsos, a.qsoCount + |stored|)];
      }
    }

    /** The statement that moves the staged records into the QSO table. */
    method StageRows(aid: Id, site: Site, records: seq<Record>) returns (stored: seq<string>)
      modifies this`qsos
      ensures qsos == StoreRows(old(qsos), aid, site, records)
      ensures stored == StoredKeys(old(qsos), aid, site, records)
    {
      stored := [];
      ghost var before := qsos;
      for i := 0 to |records|
        invariant StoreRows(before, aid, site, records) == StoreRows(qsos, aid, site, records[i..])
        invariant StoredKeys(before, aid, site, records) == stored + StoredKeys(qsos, aid, site, records[i..])
      {
        var key := records[i].deduplicationKey;
        assert records[i..][0] == records[i] && records[i..][1..] == records[i + 1..];
        if key !in qsos {
          ghost var rest := StoredKeys(qsos, aid, site, records[i..]);
          qsos := qsos[key := ToQso(aid, site, records[i])];
          assert rest == [key] + StoredKeys(qsos, aid, site, records[i + 1..]);
          assert stored + rest == (stored + [key]) + StoredKeys(qsos, aid, site, records[i + 1..]);
          stored := stored + [key];
        }
      }
      assert records[|records|..] == [];
    }

    method CountStored(site: Site, stored: seq<string>)
      requires forall d | d in stored :: d in qsos
      modifies this`aggregates, this`subjectCallsigns, this`subjectEntities
      ensures State().subjects == ApplyQsos(old(State().subjects), site, qsos, stored)
    {
      ghost var before := State().subjects;
      for i := 0 to |stored|
        invariant ApplyQsos(before, site, qsos, stored) == ApplyQsos(State().subjects, site, qsos, stored[i..])
      {
        assert stored[i..][0] == stored[i] && stored[i..][1..] == stored[i + 1..];
        CountQso(site, qsos[stored[i]]);
      }
      assert stored[|stored|..] == [];
    }

    /** The two counting queries, one row at a time. The counts are the number of QSOs by
        which a cascade would shrink the table and the number of activations it would close. */
    method EntityDeletionImpact(entityId: Id) returns (impact: Impact)
      ensures impact == Impact(|Doomed(State().ledger, entityId)|, |ActivationsAt(State().ledger, entityId)|)
      ensures var after := Cascade(State(), entityId).ledger;
        && impact.qsoCount == |qsos| - |after.qsos|
        && impact.activationCount == |set a | a in ActivationsAt(after, entityId) && after.activations[a].status == ClosedInvalid|
    {
      var n := CountDoomed(entityId);
      var m := CountActivationsAt(entityId);
      PreviewIsDelivered(State(), entityId);
      impact := Impact(n, m);
    }

    method CountDoomed(entityId: Id) returns (n: nat)
      ensures n == |Doomed(State().ledger, entityId)|
    {
      ghost var doomed := Doomed(State().ledger, entityId);
      n := 0;
      var rest := qsos.Keys;
      while rest != {}
        invariant rest <= qsos.Keys && n == |doomed - rest|
        decreases rest
      {
        var d :| d in rest;
        OneLess(doomed, rest, d);
        var q := qsos[d];
        if q.status != Void && q.activationId in activations &&
           (q.workedEntityId == Some(entityId) || activations[q.activationId].site.entityId == entityId) {
          n := n + 1;
        }
        rest := rest - {d};
      }
      assert doomed - {} == doomed;
    }

    method CountActivationsAt(entityId: Id) returns (n: nat)
      ensures n == |ActivationsAt(State().ledger, entityId)|
    {
      ghost var at := ActivationsAt(State().ledger, entityId);
      n := 0;
      var rest := activations.Keys;
      while rest != {}
        invariant rest <= activations.Keys && n == |at - rest|
        decreases rest
      {
        var a :| a in rest;
        OneLess(at, rest, a);
        if activations[a].site.entityId == entityId {
          n := n + 1;
        }
        rest := rest - {a};
      }
      assert at - {} == at;
    }

    /** Deletes the QSOs that refer to the entity, rebuilds the subjects they counted for
        and queues their awards. A retry under a known key answers as before. */
    method CascadeDeleteEntity(entityId: Id, key: Option<string>) returns (impact: Impact)
      modifies this
      ensures key.Some? && key.value in old(responses) ==>
        impact == old(responses)[key.value] && State() == old(State()) &&
        Queue() == old(Queue()) && responses == old(responses)
      ensures key.None? || key.value !in old(responses) ==>
        && State() == Step(old(State()), OpCascade(entityId))
        && impact == Impact(|Doomed(old(State()).ledger, entityId)|, |ActivationsAt(old(State()).ledger, entityId)|)
        && |old(qsos)| == |qsos| + impact.qsoCount
        && Queue() == AwardQueue.After(old(Queue()), AwardQueue.Records(OpCascade(entityId)))
        && responses == if key.Some? then old(responses)[key.value := impact] else old(responses)
      ensures recorded == old(recorded)
    {
      if key.Some? && key.value in responses {
        return responses[key.value];
      }
      impact := DeleteEntity(entityId);
      if key.Some? {
        responses := responses[key.value := impact];
      }
    }

    method DeleteEntity(entityId: Id) returns (impact: Impact)
      modifies this`activations, this`qsos, this`aggregates, this`subjectCallsigns, this`subjectEntities, this`jobs
      ensures State() == Step(old(State()), OpCascade(entityId))
      ensures impact == Impact(|Doomed(old(State()).ledger, entityId)|, |ActivationsAt(old(State()).ledger, entityId)|)
      ensures |old(qsos)| == |qsos| + impact.qsoCount
      ensures jobs == AwardQueue.Offered(old(jobs), AwardQueue.Offers(old(recorded), old(State()), OpCascade(entityId)))
    {
      var subjects, programmes;
      impact, subjects, programmes := DeleteContacts(entityId);
      QueueRecalculations(entityId, programmes, subjects);
    }

    method DeleteContacts(entityId: Id) returns (impact: Impact, subjects: set<Id>, programmes: set<Id>)
      modifies this`activations, this`qsos, this`aggregates, this`subjectCallsigns, this`subjectEntities
      ensures State() == Step(old(State()), OpCascade(entityId))
      ensures impact == Impact(|Doomed(old(State()).ledger, entityId)|, |ActivationsAt(old(State()).ledger, entityId)|)
      ensures |old(qsos)| == |qsos| + impact.qsoCount
      ensures var l := old(State()).ledger;
        subjects == Collected(l, entityId) &&
        programmes == AwardQueue.Programmes(l, ActivationsAt(l, entityId), Doomed(l, entityId))
    {
      CascadeShrinks(State(), entityId);
      var l := Ledger(activations, qsos);
      var doomed, at := Doomed(l, entityId), ActivationsAt(l, entityId);
      var affected;
      subjects, affected, programmes := CollectAffected(l, entityId, doomed, at);
      ApplyCascade(entityId, doomed, affected, subjects);
      impact := Impact(|doomed|, |at|);
    }

    method ApplyCascade(entityId: Id, doomed: set<string>, affected: set<Id>, subjects: set<Id>)
      requires doomed == Doomed(State().ledger, entityId)
      requires affected == AffectedActivations(State().ledger, entityId)
      requires subjects == Collected(State().ledger, entityId)
      modifies this`activations, this`qsos, this`aggregates, this`subjectCallsigns, this`subjectEntities
      ensures State() == Step(old(State()), OpCascade(entityId))
    {
      DeleteAndRecount(entityId, doomed, affected);
      RebuildSubjectAggregates(subjects);
    }

    method QueueRecalculations(entityId: Id, programmes: set<Id>, subjects: set<Id>)
      modifies this`jobs
      ensures jobs == AwardQueue.Offered(old(jobs), AwardQueue.CascadeOffers(entityId, programmes, subjects))
    {
      ghost var before := jobs;
      var rest := programmes;
      OffersNothing(before, entityId, subjects);
      while rest != {}
        invariant rest <= programmes
        invariant jobs == AwardQueue.Offered(before, AwardQueue.CascadeOffers(entityId, programmes - rest, subjects))
        decreases rest
      {
        var p :| p in rest;
        OffersOneMore(before, entityId, programmes - rest, subjects, p);
        assert programmes - (rest - {p}) == (programmes - rest) + {p};
        if p != "" {
          OneIsOffered(jobs, AwardQueue.OfCascade(entityId, p), p, subjects);
          QueueJob(AwardQueue.OfCascade(entityId, p), p, subjects);
        }
        rest := rest - {p};
      }
      assert programmes - {} == programmes;
    }

    /** Walks the selected rows, collecting the subjects, activations and programmes they touch. */
    method CollectAffected(l: Ledger, entityId: Id, doomed: set<string>, at: set<Id>)
      returns (subjects: set<Id>, affected: set<Id>, programmes: set<Id>)
      requires doomed == Doomed(l, entityId) && at == ActivationsAt(l, entityId)
      ensures subjects == Collected(l, entityId)
      ensures affected == AffectedActivations(l, entityId)
      ensures programmes == AwardQueue.Programmes(l, at, doomed)
    {
      subjects := set a | a in at :: l.activations[a].site.operatorId;
      programmes := set a | a in at :: l.activations[a].site.programme;
      affected := {};
      var rest := doomed;
      while rest != {}
        invariant rest <= doomed
        invariant subjects == (set a | a in at :: l.activations[a].site.operatorId) + Parties(l, doomed - rest)
        invariant affected == Sites(l, doomed - rest)
        invariant programmes == AwardQueue.Programmes(l, at, doomed - rest)
        decreases rest
      {
        var d :| d in rest;
        OneRowMore(l, at, doomed - rest, d);
        subjects := subjects + {l.qsos[d].operatorId};
        if l.qsos[d].hunterId.Some? {
          subjects := subjects + {l.qsos[d].hunterId.value};
        }
        programmes := programmes + {l.qsos[d].programme};
        affected := affected + {l.qsos[d].activationId};
        assert doomed - (rest - {d}) == (doomed - rest) + {d};
        rest := rest - {d};
      }
      assert doomed - {} == doomed;
      affected := affected + at;
    }

    method DeleteAndRecount(entityId: Id, doomed: set<string>, affected: set<Id>)
      requires doomed == Doomed(State().ledger, entityId)
      requires affected == AffectedActivations(State().ledger, entityId)
      modifies this`activations, this`qsos
      ensures State().ledger == CascadeLedger(old(State().ledger), entityId)
    {
      qsos := map d | d in qsos && d !in doomed :: qsos[d];
      activations := map a | a in activations ::
        if a in affected then
          WithCounters(activations[a], a, qsos, |ActivationQsos(qsos, a)|).(
            status := if activations[a].site.entityId == entityId then ClosedInvalid else activations[a].status)
        else activations[a];
    }

    /** Deletes and re-derives the subject rows, one subject at a time. */
    method RebuildSubjectAggregates(subjectIds: set<Id>)
      modifies this`aggregates, this`subjectCallsigns, this`subjectEntities
      ensures State().subjects == Rebuild(State().ledger, old(State().subjects), subjectIds)
    {
      ghost var before := State().subjects;
      var l := Ledger(activations, qsos);
      var rest := subjectIds;
      RebuildNone(l, before);
      while rest != {}
        invariant rest <= subjectIds
        invariant State().subjects == Rebuild(l, before, subjectIds - rest)
        decreases rest
      {
        var id :| id in rest;
        RebuildOneMore(l, before, subjectIds - rest, id);
        assert subjectIds - (rest - {id}) == (subjectIds - rest) + {id};
        RebuildSubject(id);
        rest := rest - {id};
      }
      assert subjectIds - {} == subjectIds;
    }

    method RebuildSubject(id: Id)
      modifies this`aggregates, this`subjectCallsigns, this`subjectEntities
      ensures State().subjects == Rebuild(State().ledger, old(State().subjects), {id})
    {
      DeleteRows({id});
      InsertRows({id});
    }

    method DeleteRows(ids: set<Id>)
      modifies this`aggregates, this`subjectCallsigns, this`subjectEntities
      ensures State().subjects == Others(old(State().subjects), ids)
    {
      subjectCallsigns := set p | p in subjectCallsigns && p.0.subject !in ids;
      subjectEntities := set p | p in subjectEntities && p.0.subject !in ids;
      aggregates := map k | k in aggregates && k.subject !in ids :: aggregates[k];
    }

    /** The four INSERT ... SELECT statements. */
    method InsertRows(ids: set<Id>)
      modifies this`aggregates, this`subjectCallsigns, this`subjectEntities
      ensures State().subjects == Merged(old(State().subjects), Derived(State().ledger, Groups(State().ledger, ids)))
    {
      var l := Ledger(activations, qsos);
      SelectedAggregates(l, ids, aggregates);
      SelectedCallsigns(l, ids);
      SelectedEntities(l, ids);
      aggregates := aggregates + CategoryAggregates(l, ids, ACTIVATOR);
      aggregates := aggregates + CategoryAggregates(l, ids, HUNTER);
      subjectCallsigns := subjectCallsigns + (ActivatorCallsigns(l, ids) + HunterCallsigns(l, ids));
      subjectEntities := subjectEntities + (ActivatorEntities(l, ids) + HunterEntities(l, ids));
    }
  }

  // ------------------------------------------------ the SELECTs, row by row

  /** The non-VOID QSOs, joined with their activations. */
  function Rows(l: Ledger): set<string> {
    set d | d in l.qsos && l.qsos[d].status != Void && l.qsos[d].activationId in l.activations
  }

  function SiteOf(l: Ledger, d: string): Site
    requires d in Rows(l)
  {
    l.activations[l.qsos[d].activationId].site
  }

  function ActivatorKey(l: Ledger, d: string): SubjectKey
    requires d in Rows(l)
  {
    SubjectKey(SiteOf(l, d).programme, SiteOf(l, d).operatorId, ACTIVATOR)
  }

  function HunterKey(l: Ledger, d: string): SubjectKey
    requires d in l.qsos && l.qsos[d].hunterId.Some?
  {
    SubjectKey(l.qsos[d].programme, l.qsos[d].hunterId.value, HUNTER)
  }

  predicate CountsFor(l: Ledger, d: string, k: SubjectKey)
    requires d in Rows(l)
  {
    match k.category
    case ACTIVATOR => k == ActivatorKey(l, d)
    case HUNTER => l.qsos[d].hunterId.Some? && k == HunterKey(l, d)
  }

  function ActivatorCallsigns(l: Ledger, ids: set<Id>): set<(SubjectKey, string)> {
    set d | d in Rows(l) && SiteOf(l, d).operatorId in ids :: (ActivatorKey(l, d), l.qsos[d].workedCallsign)
  }

  function HunterCallsigns(l: Ledger, ids: set<Id>): set<(SubjectKey, string)> {
    set d | d in Rows(l) && l.qsos[d].hunterId.Some? && l.qsos[d].hunterId.value in ids ::
      (HunterKey(l, d), l.qsos[d].workedCallsign)
  }

  function ActivatorEntities(l: Ledger, ids: set<Id>): set<(SubjectKey, Id)> {
    set d | d in Rows(l) && SiteOf(l, d).operatorId in ids :: (ActivatorKey(l, d), SiteOf(l, d).entityId)
  }

  function HunterEntities(l: Ledger, ids: set<Id>): set<(SubjectKey, Id)> {
    set d | d in Rows(l) && l.qsos[d].hunterId.Some? && l.qsos[d].hunterId.value in ids && l.qsos[d].workedEntityId.Some? ::
      (HunterKey(l, d), l.qsos[d].workedEntityId.value)
  }

  function CategoryAggregates(l: Ledger, ids: set<Id>, category: Category): map<SubjectKey, Aggregate> {
    map k | k in Groups(l, ids) && k.category == category :: RefAggregate(l, k)
  }

  lemma SelectedAggregates(l: Ledger, ids: set<Id>, before: map<SubjectKey, Aggregate>)
    ensures before + CategoryAggregates(l, ids, ACTIVATOR) + CategoryAggregates(l, ids, HUNTER) ==
            before + Derived(l, Groups(l, ids)).aggregates
  {
    TwoInserts(before, CategoryAggregates(l, ids, ACTIVATOR), CategoryAggregates(l, ids, HUNTER), Derived(l, Groups(l, ids)).aggregates);
  }

  lemma TwoInserts<K, V>(before: map<K, V>, x: map<K, V>, y: map<K, V>, both: map<K, V>)
    requires both.Keys == x.Keys + y.Keys
    requires forall k | k in x :: both[k] == x[k]
    requires forall k | k in y :: both[k] == y[k]
    ensures before + x + y == before + both
  {
  }

  /** A joined row counts for the operator of its activation and for its hunter. */
  lemma RowOwners(l: Ledger, d: string, k: SubjectKey)
    requires d in l.qsos
    ensures d in OwnedQsos(l, k) <==> d in Rows(l) && CountsFor(l, d, k)
  {
  }

  lemma OwnedIsGrouped(l: Ledger, k: SubjectKey, ids: set<Id>, d: string)
    requires d in OwnedQsos(l, k) && k.subject in ids
    ensures k in Groups(l, ids)
  {
    if k.category == ACTIVATOR {
      assert l.qsos[d].activationId in OwnedActivations(l, k);
    }
    PresentIsGrouped(l, k);
  }

  /** The rows selected for the callsign table are those of the grouped subjects. */
  lemma SelectedCallsigns(l: Ledger, ids: set<Id>)
    ensures ActivatorCallsigns(l, ids) + HunterCallsigns(l, ids) == Derived(l, Groups(l, ids)).callsigns
  {
    var selected, derived := ActivatorCallsigns(l, ids) + HunterCallsigns(l, ids), Derived(l, Groups(l, ids)).callsigns;
    forall k, c | (k, c) in derived ensures (k, c) in selected {
      var d :| d in OwnedQsos(l, k) && l.qsos[d].workedCallsign == c;
      RowOwners(l, d, k);
    }
    forall d | d in Rows(l) && SiteOf(l, d).operatorId in ids ensures (ActivatorKey(l, d), l.qsos[d].workedCallsign) in derived {
      RowOwners(l, d, ActivatorKey(l, d));
      OwnedIsGrouped(l, ActivatorKey(l, d), ids, d);
      assert l.qsos[d].workedCallsign in RefCallsigns(l, ActivatorKey(l, d));
    }
    forall d | d in Rows(l) && l.qsos[d].hunterId.Some? && l.qsos[d].hunterId.value in ids
      ensures (HunterKey(l, d), l.qsos[d].workedCallsign) in derived
    {
      RowOwners(l, d, HunterKey(l, d));
      OwnedIsGrouped(l, HunterKey(l, d), ids, d);
      assert l.qsos[d].workedCallsign in RefCallsigns(l, HunterKey(l, d));
    }
  }

  /** The same for the entity table. */
  lemma SelectedEntities(l: Ledger, ids: set<Id>)
    ensures ActivatorEntities(l, ids) + HunterEntities(l, ids) == Derived(l, Groups(l, ids)).entities
  {
    var selected, derived := ActivatorEntities(l, ids) + HunterEntities(l, ids), Derived(l, Groups(l, ids)).entities;
    forall k, e | (k, e) in derived ensures (k, e) in selected {
      JoinedRow(l, k, e);
      var d :| d in OwnedQsos(l, k) && JoinedEntity(l, k, d) == Some(e);
      RowOwners(l, d, k);
    }
    forall d | d in Rows(l) && SiteOf(l, d).operatorId in ids ensures (ActivatorKey(l, d), SiteOf(l, d).entityId) in derived {
      var k := ActivatorKey(l, d);
      RowOwners(l, d, k);
      OwnedIsGrouped(l, k, ids, d);
      assert JoinedEntity(l, k, d) == Some(SiteOf(l, d).entityId);
      JoinedRow(l, k, SiteOf(l, d).entityId);
    }
    forall d | d in Rows(l) && l.qsos[d].hunterId.Some? && l.qsos[d].hunterId.value in ids && l.qsos[d].workedEntityId.Some?
      ensures (HunterKey(l, d), l.qsos[d].workedEntityId.value) in derived
    {
      var k := HunterKey(l, d);
      RowOwners(l, d, k);
      OwnedIsGrouped(l, k, ids, d);
      assert JoinedEntity(l, k, d) == Some(l.qsos[d].workedEntityId.value);
      JoinedRow(l, k, l.qsos[d].workedEntityId.value);
    }
  }

  /** The entity one owned row contributes. */
  function JoinedEntity(l: Ledger, k: SubjectKey, d: string): Option<Id>
    requires d in OwnedQsos(l, k)
  {
    match k.category
    case ACTIVATOR => Some(l.activations[l.qsos[d].activationId].site.entityId)
    case HUNTER => l.qsos[d].workedEntityId
  }

  lemma JoinedRow(l: Ledger, k: SubjectKey, e: Id)
    ensures e in JoinedEntities(l, k) <==> exists d :: d in OwnedQsos(l, k) && JoinedEntity(l, k, d) == Some(e)
  {
    if d :| d in OwnedQsos(l, k) && JoinedEntity(l, k, d) == Some(e) {
      if k.category == HUNTER {
        assert l.qsos[d].workedEntityId == Some(e);
      }
    }
  }
}
