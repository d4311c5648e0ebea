/** A batch insert against the same records inserted one by one, in any order and
    with any repetition. */
module Batches {
  import opened Wrappers
  import opened Ledger
  import opened Aggregates
  import opened Sequences

  // ------------------------------------------------ one by one, in the same order

  lemma CountersOverwritten(a: Activation, aid: Id, before: map<string, Qso>, n: int, after: map<string, Qso>, m: int)
    ensures WithCounters(WithCounters(a, aid, before, n), aid, after, m) == WithCounters(a, aid, after, m)
  {
  }

  lemma BatchUnfolds(t: Tables, aid: Id, rs: seq<Record>)
    requires aid in t.ledger.activations && rs != []
    ensures StoreBatch(t, aid, rs) == StoreBatch(StoreQso(t, aid, rs[0]), aid, rs[1..])
  {
    var d := rs[0].deduplicationKey;
    if d !in t.ledger.qsos {
      BatchUnfoldsNew(t, aid, rs);
    }
  }

  lemma BatchUnfoldsNew(t: Tables, aid: Id, rs: seq<Record>)
    requires aid in t.ledger.activations && rs != [] && rs[0].deduplicationKey !in t.ledger.qsos
    ensures StoreBatch(t, aid, rs) == StoreBatch(StoreQso(t, aid, rs[0]), aid, rs[1..])
  {
    var a, d := t.ledger.activations[aid], rs[0].deduplicationKey;
    var more := t.ledger.qsos[d := ToQso(aid, a.site, rs[0])];
    var qsos, rest := StoreRows(more, aid, a.site, rs[1..]), StoredKeys(more, aid, a.site, rs[1..]);
    assert StoreBatch(t, aid, rs) == AfterStaging(t, aid, qsos, [d] + rest);
    assert StoreBatch(StoreQso(t, aid, rs[0]), aid, rs[1..]) == AfterStaging(StoreQso(t, aid, rs[0]), aid, qsos, rest);
    if rest == [] {
      NothingStored(more, aid, a.site, rs[1..]);
    }
    StagingUnfolds(t, aid, rs[0], qsos, rest);
  }

  /** The updates after a statement, with its first row taken out and stored beforehand. */
  lemma StagingUnfolds(t: Tables, aid: Id, r: Record, qsos: map<string, Qso>, rest: seq<string>)
    requires aid in t.ledger.activations && r.deduplicationKey !in t.ledger.qsos
    requires r.deduplicationKey in qsos && qsos[r.deduplicationKey] == ToQso(aid, t.ledger.activations[aid].site, r)
    requires forall d | d in rest :: d in qsos
    requires rest == [] ==> qsos == t.ledger.qsos[r.deduplicationKey := qsos[r.deduplicationKey]]
    ensures AfterStaging(t, aid, qsos, [r.deduplicationKey] + rest) == AfterStaging(StoreQso(t, aid, r), aid, qsos, rest)
  {
    var a, d, next := t.ledger.activations[aid], r.deduplicationKey, StoreQso(t, aid, r);
    var x, y := AfterStaging(t, aid, qsos, [d] + rest), AfterStaging(next, aid, qsos, rest);
    assert ([d] + rest)[1..] == rest;
    assert x.subjects == y.subjects;
    if rest != [] {
      CountersOverwritten(a, aid, next.ledger.qsos, a.qsoCount + 1, qsos, a.qsoCount + 1 + |rest|);
    }
    assert x.ledger.activations == y.ledger.activations;
  }

  lemma {:induction false} NothingStored(qsos: map<string, Qso>, aid: Id, site: Site, rs: seq<Record>)
    requires StoredKeys(qsos, aid, site, rs) == []
    ensures StoreRows(qsos, aid, site, rs) == qsos
    decreases |rs|
  {
    if rs != [] {
      NothingStored(qsos, aid, site, rs[1..]);
    }
  }

  /** A batch whose records lie in the window leaves the tables that submitting the
      same records one by one, in the same order, leaves. */
  lemma {:induction false} BatchIsEach(t: Tables, aid: Id, rs: seq<Record>)
    requires aid in t.ledger.activations && t.ledger.activations[aid].status == Open
    requires forall i :: 0 <= i < |rs| ==> InWindow(t.ledger.activations[aid], rs[i])
    ensures InsertEach(t, aid, rs) == InsertBatch(t, aid, rs) == Success(StoreBatch(t, aid, rs))
    decreases |rs|
  {
    if rs != [] {
      var next := StoreQso(t, aid, rs[0]);
      assert InsertQso(t, aid, rs[0]) == Success(next);
      assert forall i :: 0 <= i < |rs[1..]| ==> rs[1..][i] == rs[i + 1];
      BatchIsEach(next, aid, rs[1..]);
      BatchUnfolds(t, aid, rs);
    }
  }

  lemma {:induction false} StoreBatchKeepsExact(t: Tables, aid: Id, rs: seq<Record>)
    requires aid in t.ledger.activations && Exact(t)
    ensures Exact(StoreBatch(t, aid, rs))
    ensures EntitiesListed(t) ==> EntitiesListed(StoreBatch(t, aid, rs))
    decreases |rs|
  {
    if rs != [] {
      StoreQsoKeepsExact(t, aid, rs[0]);
      StoreBatchKeepsExact(StoreQso(t, aid, rs[0]), aid, rs[1..]);
      BatchUnfolds(t, aid, rs);
    }
  }

  // ------------------------------------------------ the order of the upserts does not matter

  /** Equal views everywhere mean equal tables. */
  lemma ViewsDetermineSubjects(s: Subjects, r: Subjects)
    requires forall k :: SubjectView(s, k) == SubjectView(r, k)
    ensures s == r
  {
    forall k ensures k in s.aggregates <==> k in r.aggregates
             ensures k in s.aggregates ==> s.aggregates[k] == r.aggregates[k]
    {
      assert SubjectView(s, k) == SubjectView(r, k);
    }
    assert s.aggregates == r.aggregates;
    forall p ensures p in s.callsigns <==> p in r.callsigns {
      assert SubjectView(s, p.0) == SubjectView(r, p.0);
      assert p.1 in Section(s.callsigns, p.0) <==> p in s.callsigns;
      assert p.1 in Section(r.callsigns, p.0) <==> p in r.callsigns;
    }
    forall p ensures p in s.entities <==> p in r.entities {
      assert SubjectView(s, p.0) == SubjectView(r, p.0);
      assert p.1 in Section(s.entities, p.0) <==> p in s.entities;
      assert p.1 in Section(r.entities, p.0) <==> p in r.entities;
    }
  }

  /** The upsert, if any, that a stored QSO makes on subject k. */
  ghost function TouchOf(site: Site, q: Qso, k: SubjectKey): Option<Touch> {
    if k == ActivatorTouch(site, q).key then Some(ActivatorTouch(site, q))
    else if q.hunterId.Some? && k == HunterTouch(site, q).key then Some(HunterTouch(site, q))
    else None
  }

  ghost function TouchedView(v: View, touch: Option<Touch>): View {
    if touch.Some? then UpsertedView(v, touch.value) else v
  }

  lemma ApplyQsoView(s: Subjects, site: Site, q: Qso, k: SubjectKey)
    ensures SubjectView(ApplyQso(s, site, q), k) == TouchedView(SubjectView(s, k), TouchOf(site, q, k))
  {
    UpsertChangesOneView(s, ActivatorTouch(site, q), k);
    if q.hunterId.Some? {
      UpsertChangesOneView(Upsert(s, ActivatorTouch(site, q)), HunterTouch(site, q), k);
    }
  }

  lemma TouchesCommute(v: View, x: Option<Touch>, y: Option<Touch>)
    ensures TouchedView(TouchedView(v, x), y) == TouchedView(TouchedView(v, y), x)
  {
    if x.Some? && y.Some? {
      assert With(With(v.callsigns, x.value.callsign), y.value.callsign) ==
             With(With(v.callsigns, y.value.callsign), x.value.callsign);
      assert With(With(v.entities, x.value.entityId), y.value.entityId) ==
             With(With(v.entities, y.value.entityId), x.value.entityId);
    }
  }

  lemma ApplyQsoCommutes(s: Subjects, site: Site, p: Qso, q: Qso)
    ensures ApplyQso(ApplyQso(s, site, p), site, q) == ApplyQso(ApplyQso(s, site, q), site, p)
  {
    var pq, qp := ApplyQso(ApplyQso(s, site, p), site, q), ApplyQso(ApplyQso(s, site, q), site, p);
    forall k ensures SubjectView(pq, k) == SubjectView(qp, k) {
      ApplyQsoView(s, site, p, k);
      ApplyQsoView(s, site, q, k);
      ApplyQsoView(ApplyQso(s, site, p), site, q, k);
      ApplyQsoView(ApplyQso(s, site, q), site, p, k);
      TouchesCommute(SubjectView(s, k), TouchOf(site, p, k), TouchOf(site, q, k));
    }
    ViewsDetermineSubjects(pq, qp);
  }

  ghost function Without<T>(xs: seq<T>, i: nat): seq<T>
    requires i < |xs|
  {
    xs[..i] + xs[i + 1..]
  }

  lemma {:induction false} ApplyAnyFirst(s: Subjects, site: Site, qsos: map<string, Qso>, keys: seq<string>, i: nat)
    requires i < |keys| && forall d | d in keys :: d in qsos
    ensures ApplyQsos(s, site, qsos, keys) ==
            ApplyQsos(ApplyQso(s, site, qsos[keys[i]]), site, qsos, Without(keys, i))
    decreases i
  {
    if i == 0 {
      assert Without(keys, 0) == keys[1..];
    } else {
      ApplyAnyFirst(ApplyQso(s, site, qsos[keys[0]]), site, qsos, keys[1..], i - 1);
      ApplyQsoCommutes(s, site, qsos[keys[0]], qsos[keys[i]]);
      assert Without(keys, i)[1..] == Without(keys[1..], i - 1);
    }
  }

  lemma CancelOne<T>(x: T, a: multiset<T>, b: multiset<T>)
    requires multiset{x} + a == multiset{x} + b
    ensures a == b
  {
    assert a == (multiset{x} + a) - multiset{x};
  }

  lemma {:induction false} ApplyOrderIrrelevant(s: Subjects, site: Site, qsos: map<string, Qso>, xs: seq<string>, ys: seq<string>)
    requires multiset(xs) == multiset(ys)
    requires forall d | d in xs :: d in qsos
    requires forall d | d in ys :: d in qsos
    ensures ApplyQsos(s, site, qsos, xs) == ApplyQsos(s, site, qsos, ys)
    decreases |xs|
  {
    if xs == [] {
      assert |multiset(ys)| == 0;
    } else {
      assert xs[0] in multiset(ys);
      var i: nat :| i < |ys| && ys[i] == xs[0];
      assert xs == [xs[0]] + xs[1..];
      assert ys == ys[..i] + [ys[i]] + ys[i + 1..];
      assert multiset(xs) == multiset{xs[0]} + multiset(xs[1..]);
      assert multiset(ys) == multiset{ys[i]} + multiset(Without(ys, i));
      CancelOne(xs[0], multiset(xs[1..]), multiset(Without(ys, i)));
      ApplyAnyFirst(s, site, qsos, ys, i);
      ApplyOrderIrrelevant(ApplyQso(s, site, qsos[xs[0]]), site, qsos, xs[1..], Without(ys, i));
    }
  }

  // ------------------------------------------------ nor does the order of the records

  ghost predicate SameRecords(rs: seq<Record>, qs: seq<Record>) {
    forall r :: r in rs <==> r in qs
  }

  /** Records with one deduplication key that is not stored yet are one record. */
  ghost predicate KeyDetermines(qsos: map<string, Qso>, rs: seq<Record>) {
    forall r, q | r in rs && q in rs && r.deduplicationKey == q.deduplicationKey && r.deduplicationKey !in qsos :: r == q
  }

  lemma DistinctMultiset<T>(xs: seq<T>, ys: seq<T>)
    requires Distinct(xs) && Distinct(ys) && forall x :: x in xs <==> x in ys
    ensures multiset(xs) == multiset(ys)
  {
    forall x ensures multiset(xs)[x] == multiset(ys)[x] {
      DistinctCount(xs, x);
      DistinctCount(ys, x);
    }
  }

  /** Which rows a batch stores, and with which contents. */
  lemma {:induction false} StoreRowsContents(qsos: map<string, Qso>, aid: Id, site: Site, rs: seq<Record>, d: string)
    requires KeyDetermines(qsos, rs)
    ensures d in StoreRows(qsos, aid, site, rs) <==> d in qsos || exists r :: r in rs && r.deduplicationKey == d
    ensures forall r | r in rs && r.deduplicationKey == d && d !in qsos ::
              d in StoreRows(qsos, aid, site, rs) && StoreRows(qsos, aid, site, rs)[d] == ToQso(aid, site, r)
    decreases |rs|
  {
    if rs != [] {
      var first := rs[0].deduplicationKey;
      assert rs[0] in rs;
      assert forall r :: r in rs <==> r == rs[0] || r in rs[1..];
      var more := if first in qsos then qsos else qsos[first := ToQso(aid, site, rs[0])];
      StoreRowsContents(more, aid, site, rs[1..], d);
    }
  }

  lemma {:induction false} StoredKeysContents(qsos: map<string, Qso>, aid: Id, site: Site, rs: seq<Record>)
    ensures Distinct(StoredKeys(qsos, aid, site, rs))
    ensures forall d :: d in StoredKeys(qsos, aid, site, rs) <==>
              d !in qsos && exists r :: r in rs && r.deduplicationKey == d
    decreases |rs|
  {
    if rs != [] {
      var first := rs[0].deduplicationKey;
      assert rs[0] in rs;
      assert forall r :: r in rs <==> r == rs[0] || r in rs[1..];
      var more := if first in qsos then qsos else qsos[first := ToQso(aid, site, rs[0])];
      StoredKeysContents(more, aid, site, rs[1..]);
    }
  }

  /** Any other batch with the same records, in whatever order and however often each is
      repeated, has the same outcome and leaves the same tables. */
  ghost predicate OrderFree(t: Tables, aid: Id, rs: seq<Record>) {
    forall qs | SameRecords(rs, qs) :: InsertBatch(t, aid, qs) == InsertBatch(t, aid, rs)
  }

  ghost predicate Accepts(t: Tables, aid: Id, rs: seq<Record>) {
    && aid in t.ledger.activations
    && t.ledger.activations[aid].status == Open
    && forall r | r in rs :: InWindow(t.ledger.activations[aid], r)
  }

  lemma AcceptedIsStored(t: Tables, aid: Id, rs: seq<Record>)
    ensures InsertBatch(t, aid, rs).Success? <==> Accepts(t, aid, rs)
    ensures Accepts(t, aid, rs) ==> InsertBatch(t, aid, rs) == Success(StoreBatch(t, aid, rs))
  {
    if aid in t.ledger.activations {
      var a := t.ledger.activations[aid];
      assert (forall i :: 0 <= i < |rs| ==> InWindow(a, rs[i])) <==> (forall r | r in rs :: InWindow(a, r));
    }
  }

  /** The order and the repetition of the records never matter to a refused batch, and
      they do not matter to an accepted one if and only if each new key names one record. */
  lemma BatchOrderIrrelevant(t: Tables, aid: Id, rs: seq<Record>)
    ensures OrderFree(t, aid, rs) <==> (Accepts(t, aid, rs) ==> KeyDetermines(t.ledger.qsos, rs))
  {
    forall qs | SameRecords(rs, qs) && (Accepts(t, aid, rs) ==> KeyDetermines(t.ledger.qsos, rs))
      ensures InsertBatch(t, aid, qs) == InsertBatch(t, aid, rs)
    {
      AcceptedIsStored(t, aid, rs);
      AcceptedIsStored(t, aid, qs);
      assert Accepts(t, aid, qs) <==> Accepts(t, aid, rs);
      if Accepts(t, aid, rs) {
        StoreBatchOrderIrrelevant(t, aid, rs, qs);
      } else {
        RefusalIgnoresOrder(t, aid, rs, qs);
      }
    }
    if Accepts(t, aid, rs) && OrderFree(t, aid, rs) {
      forall r, q | r in rs && q in rs && r.deduplicationKey == q.deduplicationKey && r.deduplicationKey !in t.ledger.qsos
        ensures r == q
      {
        FirstComes(t, aid, rs, r);
        FirstComes(t, aid, rs, q);
        SameRowSameRecord(aid, t.ledger.activations[aid].site, r, q);
      }
    }
  }

  lemma RefusalIgnoresOrder(t: Tables, aid: Id, rs: seq<Record>, qs: seq<Record>)
    requires !Accepts(t, aid, rs) && !Accepts(t, aid, qs)
    ensures InsertBatch(t, aid, rs) == InsertBatch(t, aid, qs)
  {
    AcceptedIsStored(t, aid, rs);
    AcceptedIsStored(t, aid, qs);
  }

  /** A new record moved to the front of its batch is the one stored under its key. */
  lemma FirstComes(t: Tables, aid: Id, rs: seq<Record>, r: Record)
    requires Accepts(t, aid, rs) && r in rs && r.deduplicationKey !in t.ledger.qsos && OrderFree(t, aid, rs)
    ensures InsertBatch(t, aid, rs).Success?
    ensures var qsos := InsertBatch(t, aid, rs).value.ledger.qsos;
      r.deduplicationKey in qsos && qsos[r.deduplicationKey] == ToQso(aid, t.ledger.activations[aid].site, r)
  {
    var qs := [r] + rs;
    assert SameRecords(rs, qs);
    AcceptedIsStored(t, aid, rs);
    AcceptedIsStored(t, aid, qs);
    assert Accepts(t, aid, qs);
    assert StoreBatch(t, aid, qs) == StoreBatch(t, aid, rs);
  }

  lemma SameRowSameRecord(aid: Id, site: Site, r: Record, q: Record)
    requires r.deduplicationKey == q.deduplicationKey && ToQso(aid, site, r) == ToQso(aid, site, q)
    ensures r == q
  {
  }

  lemma StoreRowsOrderIrrelevant(qsos: map<string, Qso>, aid: Id, site: Site, rs: seq<Record>, qs: seq<Record>)
    requires SameRecords(rs, qs) && KeyDetermines(qsos, rs)
    ensures StoreRows(qsos, aid, site, rs) == StoreRows(qsos, aid, site, qs)
    ensures multiset(StoredKeys(qsos, aid, site, rs)) == multiset(StoredKeys(qsos, aid, site, qs))
  {
    var after, other := StoreRows(qsos, aid, site, rs), StoreRows(qsos, aid, site, qs);
    forall d
      ensures d in after <==> d in other
      ensures d in after && d in other ==> after[d] == other[d]
    {
      StoreRowsContents(qsos, aid, site, rs, d);
      StoreRowsContents(qsos, aid, site, qs, d);
    }
    StoredKeysContents(qsos, aid, site, rs);
    StoredKeysContents(qsos, aid, site, qs);
    DistinctMultiset(StoredKeys(qsos, aid, site, rs), StoredKeys(qsos, aid, site, qs));
  }

  lemma StoreBatchOrderIrrelevant(t: Tables, aid: Id, rs: seq<Record>, qs: seq<Record>)
    requires aid in t.ledger.activations && SameRecords(rs, qs) && KeyDetermines(t.ledger.qsos, rs)
    ensures StoreBatch(t, aid, rs) == StoreBatch(t, aid, qs)
  {
    var site, before := t.ledger.activations[aid].site, t.ledger.qsos;
    StoreRowsOrderIrrelevant(before, aid, site, rs, qs);
    var xs, ys := StoredKeys(before, aid, site, rs), StoredKeys(before, aid, site, qs);
    AfterStagingOrderIrrelevant(t, aid, StoreRows(before, aid, site, rs), xs, ys);
  }

  lemma AfterStagingOrderIrrelevant(t: Tables, aid: Id, qsos: map<string, Qso>, xs: seq<string>, ys: seq<string>)
    requires aid in t.ledger.activations && multiset(xs) == multiset(ys)
    requires forall d | d in xs :: d in qsos
    requires forall d | d in ys :: d in qsos
    ensures AfterStaging(t, aid, qsos, xs) == AfterStaging(t, aid, qsos, ys)
  {
    ApplyOrderIrrelevant(t.subjects, t.ledger.activations[aid].site, qsos, xs, ys);
    assert |xs| == |multiset(xs)| == |multiset(ys)| == |ys|;
  }

  /** The returned keys are exactly the new rows, each returned once. */
  lemma {:induction false} StoredRowsAreNew(qsos: map<string, Qso>, aid: Id, site: Site, rs: seq<Record>)
    ensures var after, keys := StoreRows(qsos, aid, site, rs), StoredKeys(qsos, aid, site, rs);
      && |after| == |qsos| + |keys|
      && (forall d :: d in keys <==> d in after && d !in qsos)
      && (forall r | r in rs :: r.deduplicationKey in after)
    decreases |rs|
  {
    if rs != [] {
      var first := rs[0].deduplicationKey;
      var more := if first in qsos then qsos else qsos[first := ToQso(aid, site, rs[0])];
      StoredRowsAreNew(more, aid, site, rs[1..]);
      assert forall r :: r in rs <==> r == rs[0] || r in rs[1..];
    }
  }
}
