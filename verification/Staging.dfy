/** Preprocessing of an import run: candidates keyed by source ordinal, staged batch by
    batch and replayed after a crash. */
module Staging {
  import opened Wrappers

  type Id = nat

  datatype Feature = Feature(document: string)

  /** What an adapter makes of a feature, apart from the fresh entity id and the clock. */
  datatype Content = Content(sourceRef: string, sourceHash: string, fields: string)

  datatype Skipped = Skipped(sourceRef: string, reason: string)

  datatype Failed = Failed(index: nat, message: string)

  /** Preprocessing one feature: staged, skipped, or recorded as an error. */
  datatype Outcome = Stage(content: Content) | Skip(skipped: Skipped) | Reject(message: string)

  /** The fields a replay copies from the candidate staged before. */
  datatype Review = Review(
    status: string,
    note: Option<string>,
    validatedBy: Option<string>,
    targetStatus: Option<string>,
    processedEntity: Option<Id>)

  const PENDING := Review("PENDING", None, None, None, None)

  datatype Candidate = Candidate(run: Id, ordinal: nat, content: Content, review: Review, queue: Option<Id>)

  type Candidates = map<Id, Candidate>

  datatype Entry = Entry(sourceRef: string, sourceHash: string)

  type Outcomes = nat -> Outcome

  predicate Has(s: Candidates, run: Id, o: nat, id: Id) {
    id in s && s[id].run == run && s[id].ordinal == o
  }

  /** No ordinal of a run is staged twice. */
  ghost predicate OnePerOrdinal(s: Candidates) {
    forall x, y | x in s && y in s :: s[x].run == s[y].run && s[x].ordinal == s[y].ordinal ==> x == y
  }

  // ------------------------------------------------ what a range of ordinals yields

  /** What the ordinals from lo to hi yield, in order. */
  function Collect<T>(f: nat -> Option<T>, lo: nat, hi: nat): seq<T>
    decreases hi - lo
  {
    if hi <= lo then []
    else Collect(f, lo, hi - 1) + (if f(hi - 1).Some? then [f(hi - 1).value] else [])
  }

  lemma {:induction false} CollectJoin<T>(f: nat -> Option<T>, lo: nat, mid: nat, hi: nat)
    requires lo <= mid <= hi
    ensures Collect(f, lo, hi) == Collect(f, lo, mid) + Collect(f, mid, hi)
    decreases hi
  {
    if mid < hi {
      CollectJoin(f, lo, mid, hi - 1);
    }
  }

  lemma CollectOne<T>(f: nat -> Option<T>, o: nat)
    ensures Collect(f, o, o + 1) == if f(o).Some? then [f(o).value] else []
  {
    assert Collect(f, o, o) == [];
  }

  lemma {:induction false} CollectedAt<T>(f: nat -> Option<T>, lo: nat, hi: nat, x: T)
    ensures x in Collect(f, lo, hi) <==> exists o: nat :: lo <= o < hi && f(o) == Some(x)
    decreases hi - lo
  {
    if lo < hi {
      CollectedAt(f, lo, hi - 1, x);
    }
  }

  function EntryOf(outcome: Outcomes): nat -> Option<Entry> {
    (o: nat) =>
      if outcome(o).Stage? then Some(Entry(outcome(o).content.sourceRef, outcome(o).content.sourceHash)) else None
  }

  function OrdinalOf(outcome: Outcomes): nat -> Option<nat> {
    (o: nat) => if outcome(o).Stage? then Some(o) else None
  }

  function SkippedOf(outcome: Outcomes): nat -> Option<Skipped> {
    (o: nat) => if outcome(o).Skip? then Some(outcome(o).skipped) else None
  }

  function FailedOf(outcome: Outcomes): nat -> Option<Failed> {
    (o: nat) => if outcome(o).Reject? then Some(Failed(o, outcome(o).message)) else None
  }

  /** The manifest entries of the staged features in a range of ordinals. */
  function Entries(outcome: Outcomes, lo: nat, hi: nat): seq<Entry> {
    Collect(EntryOf(outcome), lo, hi)
  }

  /** Every ordinal of the range is staged, skipped or an error. */
  lemma {:induction false} OutcomesAddUp(outcome: Outcomes, lo: nat, hi: nat)
    requires lo <= hi
    ensures |Collect(OrdinalOf(outcome), lo, hi)| + |Collect(SkippedOf(outcome), lo, hi)| + |Collect(FailedOf(outcome), lo, hi)| == hi - lo
    ensures |Entries(outcome, lo, hi)| == |Collect(OrdinalOf(outcome), lo, hi)|
    decreases hi
  {
    if lo < hi {
      OutcomesAddUp(outcome, lo, hi - 1);
    }
  }

  // ------------------------------------------------ what staging a range does

  /** The candidate as a replay of its ordinal leaves it: new content, old review. */
  function Replayed(c: Candidate, content: Content): Candidate {
    Candidate(c.run, c.ordinal, content, c.review, None)
  }

  ghost predicate InRange(c: Candidate, run: Id, outcome: Outcomes, lo: nat, hi: nat) {
    c.run == run && lo <= c.ordinal < hi && outcome(c.ordinal).Stage?
  }

  ghost predicate KeptOrReplayed(s: Candidates, t: Candidates, run: Id, outcome: Outcomes, lo: nat, hi: nat, id: Id)
    requires id in s
  {
    && id in t
    && t[id] == if InRange(s[id], run, outcome, lo, hi) then Replayed(s[id], outcome(s[id].ordinal).content) else s[id]
  }

  ghost predicate Occupied(s: Candidates, run: Id, o: nat) {
    exists id :: Has(s, run, o, id)
  }

  ghost predicate NewlyStaged(s: Candidates, c: Candidate, run: Id, outcome: Outcomes, lo: nat, hi: nat) {
    && InRange(c, run, outcome, lo, hi)
    && c == Candidate(run, c.ordinal, outcome(c.ordinal).content, PENDING, None)
    && c.review == Review("PENDING", None, None, None, None)
    && !Occupied(s, run, c.ordinal)
  }

  /** Staging the ordinals from lo to hi: candidates already there keep their id and
      review, missing ones are added, and nothing else changes. */
  ghost predicate Staged(s: Candidates, t: Candidates, run: Id, outcome: Outcomes, lo: nat, hi: nat) {
    && (forall id | id in s :: KeptOrReplayed(s, t, run, outcome, lo, hi, id))
    && (forall id | id in t && id !in s :: NewlyStaged(s, t[id], run, outcome, lo, hi))
    && (forall o {:trigger Occupied(t, run, o)} | lo <= o < hi && outcome(o).Stage? :: Occupied(t, run, o))
    && (OnePerOrdinal(s) ==> OnePerOrdinal(t))
  }

  lemma StagedNothing(s: Candidates, run: Id, outcome: Outcomes, lo: nat)
    ensures Staged(s, s, run, outcome, lo, lo)
  {
  }

  /** An ordinal of the range was occupied before exactly when its candidate is an old one. */
  lemma StillOccupied(s: Candidates, t: Candidates, run: Id, outcome: Outcomes, lo: nat, hi: nat, o: nat)
    requires Staged(s, t, run, outcome, lo, hi) && Occupied(s, run, o)
    ensures Occupied(t, run, o)
  {
    var id :| Has(s, run, o, id);
    assert KeptOrReplayed(s, t, run, outcome, lo, hi, id);
    assert Has(t, run, o, id);
  }

  /** Two adjacent ranges are one; so is a range replayed from its start. */
  lemma StagedChain(s: Candidates, t: Candidates, u: Candidates, run: Id, outcome: Outcomes, lo: nat, mid: nat, from: nat, hi: nat)
    requires Staged(s, t, run, outcome, lo, mid) && Staged(t, u, run, outcome, from, hi)
    requires lo <= from <= mid <= hi
    ensures Staged(s, u, run, outcome, lo, hi)
  {
    forall id | id in s ensures KeptOrReplayed(s, u, run, outcome, lo, hi, id) {
      assert KeptOrReplayed(s, t, run, outcome, lo, mid, id);
      assert KeptOrReplayed(t, u, run, outcome, from, hi, id);
    }
    forall id | id in u && id !in s ensures NewlyStaged(s, u[id], run, outcome, lo, hi) {
      if id in t {
        assert NewlyStaged(s, t[id], run, outcome, lo, mid);
        assert KeptOrReplayed(t, u, run, outcome, from, hi, id);
      } else {
        assert NewlyStaged(t, u[id], run, outcome, from, hi);
        if Occupied(s, run, u[id].ordinal) {
          StillOccupied(s, t, run, outcome, lo, mid, u[id].ordinal);
        }
      }
    }
    forall o | lo <= o < hi && outcome(o).Stage? ensures Occupied(u, run, o) {
      if o < from {
        assert Occupied(t, run, o);
        StillOccupied(t, u, run, outcome, from, hi, o);
      }
    }
  }

  // ------------------------------------------------ replays

  /** A review or a promotion changes only review fields and the queue. */
  ghost predicate Reviewed(s: Candidates, t: Candidates) {
    && s.Keys == t.Keys
    && forall id | id in s :: t[id] == s[id].(review := t[id].review, queue := t[id].queue)
  }

  /** Another run stages some of its ordinals meanwhile. */
  ghost predicate OtherStages(s: Candidates, t: Candidates, run: Id) {
    exists other, theirs, lo: nat, hi: nat :: other != run && Staged(s, t, other, theirs, lo, hi)
  }

  /** One thing that happens to the run: an attempt that gets through the first ordinals
      and stops, a review, or the staging of another run. */
  ghost predicate Happens(s: Candidates, t: Candidates, run: Id, outcome: Outcomes, total: nat) {
    || Reviewed(s, t)
    || OtherStages(s, t, run)
    || exists n: nat :: n <= total && Staged(s, t, run, outcome, 0, n)
  }

  ghost predicate History(states: seq<Candidates>, run: Id, outcome: Outcomes, total: nat) {
    forall i :: 0 <= i < |states| - 1 ==> Happens(states[i], states[i + 1], run, outcome, total)
  }

  /** Every candidate of the run carries what its ordinal's feature yields. */
  ghost predicate Faithful(s: Candidates, run: Id, outcome: Outcomes, total: nat) {
    && OnePerOrdinal(s)
    && forall id | id in s && s[id].run == run :: s[id].ordinal < total && outcome(s[id].ordinal) == Stage(s[id].content)
  }

  lemma HappeningIsFaithful(s: Candidates, t: Candidates, run: Id, outcome: Outcomes, total: nat)
    requires Faithful(s, run, outcome, total) && Happens(s, t, run, outcome, total)
    ensures Faithful(t, run, outcome, total)
  {
    if Reviewed(s, t) {
      ReviewIsFaithful(s, t, run, outcome, total);
    } else if OtherStages(s, t, run) {
      OtherRunLeavesAlone(s, t, run);
    } else {
      var n: nat :| n <= total && Staged(s, t, run, outcome, 0, n);
      forall id | id in t && t[id].run == run ensures t[id].ordinal < total && outcome(t[id].ordinal) == Stage(t[id].content) {
        if id in s {
          assert KeptOrReplayed(s, t, run, outcome, 0, n, id);
        } else {
          assert NewlyStaged(s, t[id], run, outcome, 0, n);
        }
      }
    }
  }

  /** What another run stages leaves the candidates of this one as they are. */
  lemma OtherRunLeavesAlone(s: Candidates, t: Candidates, run: Id)
    requires OtherStages(s, t, run)
    ensures forall id | id in s :: id in t && t[id].run == s[id].run && t[id].ordinal == s[id].ordinal && t[id].review == s[id].review
    ensures forall id | id in s && s[id].run == run :: t[id] == s[id]
    ensures forall id | id in t && t[id].run == run :: id in s
    ensures OnePerOrdinal(s) ==> OnePerOrdinal(t)
  {
    var other, theirs, lo: nat, hi: nat :| other != run && Staged(s, t, other, theirs, lo, hi);
    forall id | id in s
      ensures id in t && t[id].run == s[id].run && t[id].ordinal == s[id].ordinal && t[id].review == s[id].review
      ensures s[id].run == run ==> t[id] == s[id]
    {
      assert KeptOrReplayed(s, t, other, theirs, lo, hi, id);
    }
    forall id | id in t && id !in s ensures t[id].run == other {
      assert NewlyStaged(s, t[id], other, theirs, lo, hi);
    }
  }

  lemma ReviewIsFaithful(s: Candidates, t: Candidates, run: Id, outcome: Outcomes, total: nat)
    requires Faithful(s, run, outcome, total) && Reviewed(s, t)
    ensures Faithful(t, run, outcome, total)
  {
    forall x, y | x in t && y in t && t[x].run == t[y].run && t[x].ordinal == t[y].ordinal ensures x == y {
      assert s[x].run == s[y].run && s[x].ordinal == s[y].ordinal;
    }
  }

  lemma {:induction false} HistoryIsFaithful(states: seq<Candidates>, run: Id, outcome: Outcomes, total: nat, i: nat)
    requires History(states, run, outcome, total) && i < |states| && Faithful(states[0], run, outcome, total)
    ensures Faithful(states[i], run, outcome, total)
    decreases i
  {
    if i > 0 {
      HistoryIsFaithful(states, run, outcome, total, i - 1);
      assert Happens(states[i - 1], states[i - 1 + 1], run, outcome, total);
      HappeningIsFaithful(states[i - 1], states[i], run, outcome, total);
    }
  }

  /** However often a run was interrupted, replayed and reviewed: once an attempt gets
      through, the candidates of the run are exactly the staged features, one for each
      ordinal, with the content that feature yields. */
  lemma FinalCandidates(states: seq<Candidates>, final: Candidates, run: Id, outcome: Outcomes, total: nat, o: nat, content: Content)
    requires states != [] && History(states, run, outcome, total) && Faithful(states[0], run, outcome, total)
    requires Staged(states[|states| - 1], final, run, outcome, 0, total)
    ensures (exists id :: Has(final, run, o, id) && final[id].content == content) <==> o < total && outcome(o) == Stage(content)
    ensures forall x, y | Has(final, run, o, x) && Has(final, run, o, y) :: x == y
  {
    var last := states[|states| - 1];
    HistoryIsFaithful(states, run, outcome, total, |states| - 1);
    assert Happens(last, final, run, outcome, total);
    HappeningIsFaithful(last, final, run, outcome, total);
    if o < total && outcome(o) == Stage(content) {
      assert Occupied(final, run, o);
      var id :| Has(final, run, o, id);
      assert final[id].content == content;
    }
  }

  /** A candidate keeps its id and its ordinal through everything that happens later. */
  lemma {:induction false} IdsSurvive(states: seq<Candidates>, run: Id, outcome: Outcomes, total: nat, i: nat, j: nat, id: Id)
    requires History(states, run, outcome, total) && i <= j < |states| && id in states[i]
    ensures id in states[j] && states[j][id].run == states[i][id].run && states[j][id].ordinal == states[i][id].ordinal
    decreases j
  {
    if i < j {
      IdsSurvive(states, run, outcome, total, i, j - 1, id);
      assert Happens(states[j - 1], states[j - 1 + 1], run, outcome, total);
      IdSurvives(states[j - 1], states[j], run, outcome, total, id);
    }
  }

  lemma IdSurvives(s: Candidates, t: Candidates, run: Id, outcome: Outcomes, total: nat, id: Id)
    requires Happens(s, t, run, outcome, total) && id in s
    ensures id in t && t[id].run == s[id].run && t[id].ordinal == s[id].ordinal
  {
    if OtherStages(s, t, run) {
      OtherRunLeavesAlone(s, t, run);
    } else if !Reviewed(s, t) {
      var n: nat :| n <= total && Staged(s, t, run, outcome, 0, n);
      assert KeptOrReplayed(s, t, run, outcome, 0, n, id);
    }
  }

  lemma ReviewSurvivesReplay(s: Candidates, t: Candidates, run: Id, outcome: Outcomes, lo: nat, hi: nat, id: Id)
    requires Staged(s, t, run, outcome, lo, hi) && id in s
    ensures id in t && t[id].review == s[id].review
    ensures t[id].queue == s[id].queue <==> !InRange(s[id], run, outcome, lo, hi) || s[id].queue.None?
  {
    assert KeptOrReplayed(s, t, run, outcome, lo, hi, id);
  }

  /** Nobody reviews the candidate in this step. */
  ghost predicate NotReviewed(s: Candidates, t: Candidates, id: Id) {
    Reviewed(s, t) && id in s ==> t[id].review == s[id].review
  }

  lemma ReviewStays(s: Candidates, t: Candidates, run: Id, outcome: Outcomes, total: nat, id: Id)
    requires Happens(s, t, run, outcome, total) && id in s && NotReviewed(s, t, id)
    ensures id in t && t[id].review == s[id].review
  {
    if OtherStages(s, t, run) {
      OtherRunLeavesAlone(s, t, run);
    } else if !Reviewed(s, t) {
      var n: nat :| n <= total && Staged(s, t, run, outcome, 0, n);
      ReviewSurvivesReplay(s, t, run, outcome, 0, n, id);
    }
  }

  /** Attempts and replays, of this run or another, never lose a review: whatever the
      reviewers last left on a candidate is still there until they come back to it. */
  lemma {:induction false} ReviewsSurvive(states: seq<Candidates>, run: Id, outcome: Outcomes, total: nat, i: nat, j: nat, id: Id)
    requires History(states, run, outcome, total) && i <= j < |states| && id in states[i]
    requires forall k :: i <= k < j ==> NotReviewed(states[k], states[k + 1], id)
    ensures id in states[j] && states[j][id].review == states[i][id].review
    decreases j
  {
    if i < j {
      ReviewsSurvive(states, run, outcome, total, i, j - 1, id);
      assert Happens(states[j - 1], states[j - 1 + 1], run, outcome, total);
      assert NotReviewed(states[j - 1], states[j - 1 + 1], id);
      ReviewStays(states[j - 1], states[j], run, outcome, total, id);
    }
  }
}
