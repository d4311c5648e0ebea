/** Greedy batching of import features under a count limit and a byte limit. */
module Batching {

  /** The byte count of a serialized feature; no JSON text is empty. */
  type Size = n: int | 1 <= n witness 1

  datatype Limits = Limits(maxFeatures: int, maxBytes: int)

  function Bytes<T>(batch: seq<T>, size: T -> Size): nat {
    if batch == [] then 0 else size(batch[0]) + Bytes(batch[1..], size)
  }

  /** A feature larger than the byte budget is emitted alone. */
  predicate Obeys<T>(batch: seq<T>, size: T -> Size, l: Limits) {
    && |batch| <= (if l.maxFeatures < 1 then 1 else l.maxFeatures)
    && (|batch| >= 2 ==> Bytes(batch, size) <= l.maxBytes)
  }

  ghost predicate AllObey<T>(batches: seq<seq<T>>, size: T -> Size, l: Limits) {
    forall i :: 0 <= i < |batches| ==> Obeys(batches[i], size, l)
  }

  ghost predicate NoneEmpty<T>(batches: seq<seq<T>>) {
    forall i :: 0 <= i < |batches| ==> batches[i] != []
  }

  ghost function Joined<T>(batches: seq<seq<T>>): seq<T>
    decreases |batches|
  {
    if batches == [] then [] else Joined(batches[..|batches| - 1]) + batches[|batches| - 1]
  }

  /** A batch that could not have taken the first feature of the next one. */
  ghost predicate Closes<T>(batch: seq<T>, next: seq<T>, size: T -> Size, l: Limits) {
    next != [] && !Obeys(batch + [next[0]], size, l)
  }

  ghost predicate Maximal<T>(batches: seq<seq<T>>, size: T -> Size, l: Limits) {
    forall i :: 0 <= i < |batches| - 1 ==> Closes(batches[i], batches[i + 1], size, l)
  }

  // ------------------------------------------------ bytes

  lemma {:induction false} BytesJoin<T>(a: seq<T>, b: seq<T>, size: T -> Size)
    ensures Bytes(a + b, size) == Bytes(a, size) + Bytes(b, size)
    decreases |a|
  {
    if a == [] {
      assert a + b == b;
    } else {
      assert (a + b)[1..] == a[1..] + b;
      BytesJoin(a[1..], b, size);
    }
  }

  /** Part of an obedient batch is obedient. */
  lemma PartObeys<T>(s: seq<T>, i: nat, j: nat, size: T -> Size, l: Limits)
    requires i <= j <= |s| && Obeys(s, size, l)
    ensures Obeys(s[i..j], size, l)
  {
    assert s == s[..i] + s[i..j] + s[j..];
    BytesJoin(s[..i], s[i..j], size);
    BytesJoin(s[..i] + s[i..j], s[j..], size);
  }

  // ------------------------------------------------ greedy stays ahead

  ghost function Offset<T>(batches: seq<seq<T>>, i: nat): nat
    requires i <= |batches|
  {
    |Joined(batches[..i])|
  }

  lemma {:induction false} BatchIsSlice<T>(batches: seq<seq<T>>, i: nat)
    requires i < |batches|
    ensures Offset(batches, i) <= Offset(batches, i + 1) <= |Joined(batches)|
    ensures Joined(batches)[Offset(batches, i)..Offset(batches, i + 1)] == batches[i]
    decreases |batches|
  {
    var front := batches[..|batches| - 1];
    assert batches[..i + 1][..i] == batches[..i];
    if i < |front| {
      BatchIsSlice(front, i);
      assert front[..i] == batches[..i] && front[..i + 1] == batches[..i + 1];
      assert Joined(front) == Joined(batches)[..|Joined(front)|];
    } else {
      assert batches[..i + 1] == batches;
    }
  }

  lemma WholeOffset<T>(batches: seq<seq<T>>)
    ensures Offset(batches, |batches|) == |Joined(batches)|
  {
    assert batches[..|batches|] == batches;
  }

  /** After any number of batches the greedy split has consumed at least as much as any
      other split that obeys the limits. */
  lemma {:induction false} StaysAhead<T>(greedy: seq<seq<T>>, other: seq<seq<T>>, size: T -> Size, l: Limits, k: nat)
    requires NoneEmpty(greedy) && Maximal(greedy, size, l) && AllObey(other, size, l)
    requires Joined(greedy) == Joined(other)
    requires k <= |greedy| && k <= |other|
    ensures Offset(other, k) <= Offset(greedy, k)
    decreases k
  {
    if k > 0 {
      StaysAhead(greedy, other, size, l, k - 1);
      BatchIsSlice(greedy, k - 1);
      BatchIsSlice(other, k - 1);
      if k == |greedy| {
        WholeOffset(greedy);
      } else if Offset(greedy, k) < Offset(other, k) {
        BatchIsSlice(greedy, k);
        assert Closes(greedy[k - 1], greedy[k - 1 + 1], size, l);
        NotOvertaken(Joined(greedy), greedy, other, size, l, k);
      }
    }
  }

  lemma SliceOfSlice<T>(s: seq<T>, a: nat, b: nat, i: nat, j: nat)
    requires a <= i <= j <= b <= |s|
    ensures s[a..b][i - a..j - a] == s[i..j]
  {
    var wide := s[a..b];
    var inner := wide[i - a..j - a];
    forall k | 0 <= k < j - i ensures inner[k] == s[i..j][k] {
      assert inner[k] == wide[i - a + k] == s[i + k];
    }
  }

  /** A batch that overtook the greedy split would contain a greedy batch and one feature more. */
  lemma NotOvertaken<T>(s: seq<T>, greedy: seq<seq<T>>, other: seq<seq<T>>, size: T -> Size, l: Limits, k: nat)
    requires 0 < k < |greedy| && k <= |other| && Obeys(other[k - 1], size, l)
    requires Closes(greedy[k - 1], greedy[k], size, l)
    requires Offset(other, k - 1) <= Offset(greedy, k - 1) <= Offset(greedy, k) && Offset(other, k) <= |s|
    requires Offset(other, k - 1) <= Offset(other, k)
    requires Offset(greedy, k) <= Offset(greedy, k + 1) <= |s|
    requires s[Offset(greedy, k - 1)..Offset(greedy, k)] == greedy[k - 1]
    requires s[Offset(greedy, k)..Offset(greedy, k + 1)] == greedy[k]
    requires s[Offset(other, k - 1)..Offset(other, k)] == other[k - 1]
    ensures Offset(other, k) <= Offset(greedy, k)
  {
    var from, at, till := Offset(other, k - 1), Offset(greedy, k - 1), Offset(greedy, k);
    if till < Offset(other, k) {
      var wide := other[k - 1];
      assert s[till] == s[till..Offset(greedy, k + 1)][0] == greedy[k][0];
      assert s[at..till + 1] == s[at..till] + [s[till]];
      SliceOfSlice(s, from, Offset(other, k), at, till + 1);
      PartObeys(wide, at - from, till + 1 - from, size, l);
    }
  }

  /** No split of the same features that obeys the limits has fewer batches. */
  lemma GreedyIsOptimal<T>(greedy: seq<seq<T>>, other: seq<seq<T>>, size: T -> Size, l: Limits)
    requires NoneEmpty(greedy) && Maximal(greedy, size, l) && AllObey(other, size, l)
    requires Joined(greedy) == Joined(other)
    ensures |greedy| <= |other|
  {
    if |other| < |greedy| {
      assert greedy[|other|] != [];
      WholeOffset(other);
      BatchIsSlice(greedy, |other|);
      StaysAhead(greedy, other, size, l, |other|);
    }
  }

  // ------------------------------------------------ there is one greedy split

  /** The length of the longest obedient prefix, searched from n on. */
  function PrefixFrom<T>(s: seq<T>, size: T -> Size, l: Limits, n: nat): (m: nat)
    requires n <= |s|
    ensures n <= m <= |s|
    ensures m < |s| ==> !Obeys(s[..m + 1], size, l)
    ensures n < m ==> Obeys(s[..m], size, l)
    decreases |s| - n
  {
    if n < |s| && Obeys(s[..n + 1], size, l) then PrefixFrom(s, size, l, n + 1) else n
  }

  lemma OneObeys<T>(s: seq<T>, size: T -> Size, l: Limits)
    requires s != []
    ensures Obeys(s[..1], size, l) && 0 < PrefixFrom(s, size, l, 0)
  {
  }

  /** Each batch takes as many features as the limits allow. */
  function GreedySplit<T>(s: seq<T>, size: T -> Size, l: Limits): seq<seq<T>>
    decreases |s|
  {
    var n := PrefixFrom(s, size, l, 0);
    if n == 0 then [] else [s[..n]] + GreedySplit(s[n..], size, l)
  }

  ghost predicate IsGreedy<T>(batches: seq<seq<T>>, s: seq<T>, size: T -> Size, l: Limits) {
    Joined(batches) == s && NoneEmpty(batches) && AllObey(batches, size, l) && Maximal(batches, size, l)
  }

  lemma {:induction false} JoinedCons<T>(batch: seq<T>, rest: seq<seq<T>>)
    ensures Joined([batch] + rest) == batch + Joined(rest)
    decreases |rest|
  {
    if rest == [] {
      assert [batch] + rest == [batch] && [batch][..0] == [];
    } else {
      JoinedCons(batch, rest[..|rest| - 1]);
      assert ([batch] + rest)[..|rest|] == [batch] + rest[..|rest| - 1];
    }
  }

  lemma {:induction false} SplitIsGreedy<T>(s: seq<T>, size: T -> Size, l: Limits)
    ensures IsGreedy(GreedySplit(s, size, l), s, size, l)
    decreases |s|
  {
    if s != [] {
      OneObeys(s, size, l);
      var n := PrefixFrom(s, size, l, 0);
      var first, rest := s[..n], GreedySplit(s[n..], size, l);
      SplitIsGreedy(s[n..], size, l);
      JoinedCons(first, rest);
      ConsIsGreedy(s, n, rest, size, l);
    }
  }

  lemma ConsIsGreedy<T>(s: seq<T>, n: nat, rest: seq<seq<T>>, size: T -> Size, l: Limits)
    requires 0 < n <= |s| && Obeys(s[..n], size, l) && (n < |s| ==> !Obeys(s[..n + 1], size, l))
    requires IsGreedy(rest, s[n..], size, l) && Joined([s[..n]] + rest) == s[..n] + Joined(rest)
    ensures IsGreedy([s[..n]] + rest, s, size, l)
  {
    var all := [s[..n]] + rest;
    forall i | 0 <= i < |all| - 1 ensures Closes(all[i], all[i + 1], size, l) {
      if i == 0 {
        BatchIsSlice(rest, 0);
        assert rest[0] != [] && rest[..0] == [];
        assert rest[0][0] == s[n..][0] == s[n];
        assert s[..n] + [s[n]] == s[..n + 1];
      } else {
        assert Closes(rest[i - 1], rest[i - 1 + 1], size, l);
      }
    }
  }

  /** Two maximal splits of the same features are the same split. */
  lemma GreedyIsUnique<T>(x: seq<seq<T>>, y: seq<seq<T>>, s: seq<T>, size: T -> Size, l: Limits)
    requires IsGreedy(x, s, size, l) && IsGreedy(y, s, size, l)
    ensures x == y
  {
    GreedyIsOptimal(x, y, size, l);
    GreedyIsOptimal(y, x, size, l);
    forall k | 0 <= k < |x| ensures x[k] == y[k] {
      SameOffset(x, y, s, size, l, k);
      SameOffset(x, y, s, size, l, k + 1);
      BatchIsSlice(x, k);
      BatchIsSlice(y, k);
    }
  }

  lemma SameOffset<T>(x: seq<seq<T>>, y: seq<seq<T>>, s: seq<T>, size: T -> Size, l: Limits, k: nat)
    requires IsGreedy(x, s, size, l) && IsGreedy(y, s, size, l) && k <= |x| == |y|
    ensures Offset(x, k) == Offset(y, k)
  {
    StaysAhead(x, y, size, l, k);
    StaysAhead(y, x, size, l, k);
  }

  /** The greedy split has at most one batch exactly when all features obey together. */
  lemma OneBatchIff<T>(s: seq<T>, size: T -> Size, l: Limits)
    ensures |GreedySplit(s, size, l)| <= 1 <==> Obeys(s, size, l)
  {
    var split := GreedySplit(s, size, l);
    SplitIsGreedy(s, size, l);
    if |split| == 1 {
      assert split[..0] == [] && Joined(split) == split[0];
    }
    if Obeys(s, size, l) {
      var one := [s];
      assert one[..0] == [] && Joined(one) == s;
      GreedyIsOptimal(split, one, size, l);
    }
  }

  // ------------------------------------------------ the generator

  /** Whether the program flushes a batch on its own account, before seeing what follows. */
  predicate Full<T>(batch: seq<T>, size: T -> Size, l: Limits) {
    |batch| >= l.maxFeatures || Bytes(batch, size) >= l.maxBytes
  }

  lemma FullIsMaximal<T>(batch: seq<T>, f: T, size: T -> Size, l: Limits)
    requires batch != [] && (Full(batch, size, l) || Bytes(batch, size) + size(f) > l.maxBytes)
    ensures !Obeys(batch + [f], size, l)
  {
    BytesJoin(batch, [f], size);
    assert Bytes([f], size) == size(f) + Bytes([], size);
  }

  /** What holds between two features: flushed batches, and the one being filled. */
  ghost predicate Filling<T>(batches: seq<seq<T>>, batch: seq<T>, size: T -> Size, l: Limits) {
    && NoneEmpty(batches) && AllObey(batches, size, l) && Maximal(batches, size, l)
    && Obeys(batch, size, l)
    && (batch != [] ==> !Full(batch, size, l))
    && (batches != [] ==> Follows(batches[|batches| - 1], batch, size, l))
  }

  ghost predicate Follows<T>(last: seq<T>, batch: seq<T>, size: T -> Size, l: Limits) {
    if batch == [] then Full(last, size, l) else Closes(last, batch, size, l)
  }

  /** A batch with at least one feature, not yet checked for being full. */
  ghost predicate Loaded<T>(batches: seq<seq<T>>, batch: seq<T>, size: T -> Size, l: Limits) {
    && NoneEmpty(batches) && AllObey(batches, size, l) && Maximal(batches, size, l)
    && batch != [] && Obeys(batch, size, l)
    && (batches != [] ==> Closes(batches[|batches| - 1], batch, size, l))
  }

  ghost function Consumed<T>(batches: seq<seq<T>>, batch: seq<T>): seq<T> {
    Joined(batches) + batch
  }

  lemma Flushed<T>(batches: seq<seq<T>>, batch: seq<T>, size: T -> Size, l: Limits)
    requires Loaded(batches, batch, size, l)
    ensures var more := batches + [batch];
      NoneEmpty(more) && AllObey(more, size, l) && Maximal(more, size, l)
    ensures Consumed(batches + [batch], []) == Consumed(batches, batch)
    ensures Full(batch, size, l) ==> Filling(batches + [batch], [], size, l)
  {
    var more := batches + [batch];
    assert more[..|more| - 1] == batches;
    forall i | 0 <= i < |more| - 1 ensures Closes(more[i], more[i + 1], size, l) {
      if i < |batches| - 1 {
        assert Closes(batches[i], batches[i + 1], size, l);
      }
    }
  }

  lemma OneFeature<T>(f: T, size: T -> Size, l: Limits)
    ensures Obeys([f], size, l) && Bytes([f], size) == size(f)
  {
    assert Bytes([f], size) == size(f) + Bytes([], size);
  }

  lemma Taken<T>(batches: seq<seq<T>>, batch: seq<T>, f: T, size: T -> Size, l: Limits)
    requires Filling(batches, batch, size, l)
    requires batch != [] ==> Bytes(batch, size) + size(f) <= l.maxBytes
    ensures Loaded(batches, batch + [f], size, l)
    ensures Bytes(batch + [f], size) == Bytes(batch, size) + size(f)
    ensures Consumed(batches, batch + [f]) == Consumed(batches, batch) + [f]
  {
    OneFeature(f, size, l);
    BytesJoin(batch, [f], size);
    if batches != [] {
      var last := batches[|batches| - 1];
      if batch == [] {
        FullIsMaximal(last, f, size, l);
      }
      assert (batch + [f])[0] == if batch == [] then f else batch[0];
    }
  }

  /** A batch that is flushed because the next feature does not fit. */
  lemma TakenAfterFlush<T>(batches: seq<seq<T>>, batch: seq<T>, f: T, size: T -> Size, l: Limits)
    requires Filling(batches, batch, size, l)
    requires batch != [] && Bytes(batch, size) + size(f) > l.maxBytes
    ensures Loaded(batches + [batch], [f], size, l) && Bytes([f], size) == size(f)
    ensures Consumed(batches + [batch], [f]) == Consumed(batches, batch) + [f]
  {
    OneFeature(f, size, l);
    Flushed(batches, batch, size, l);
    FullIsMaximal(batch, f, size, l);
    assert Consumed(batches + [batch], [f]) == Consumed(batches + [batch], []) + [f];
  }

  /** The loop's state after the features in `seen`: between two features, or within one. */
  ghost predicate Progress<T>(batches: seq<seq<T>>, batch: seq<T>, bytes: int, seen: seq<T>, size: T -> Size, l: Limits) {
    Filling(batches, batch, size, l) && bytes == Bytes(batch, size) && Consumed(batches, batch) == seen
  }

  ghost predicate Pending<T>(batches: seq<seq<T>>, batch: seq<T>, bytes: int, seen: seq<T>, size: T -> Size, l: Limits) {
    Loaded(batches, batch, size, l) && bytes == Bytes(batch, size) && Consumed(batches, batch) == seen
  }

  lemma Take<T>(batches: seq<seq<T>>, batch: seq<T>, bytes: int, seen: seq<T>, f: T, size: T -> Size, l: Limits)
    requires Progress(batches, batch, bytes, seen, size, l)
    ensures batch != [] && (|batch| >= l.maxFeatures || bytes + size(f) > l.maxBytes) ==>
      Pending(batches + [batch], [] + [f], 0 + size(f), seen + [f], size, l)
    ensures batch == [] || (|batch| < l.maxFeatures && bytes + size(f) <= l.maxBytes) ==>
      Pending(batches, batch + [f], bytes + size(f), seen + [f], size, l)
  {
    assert [] + [f] == [f];
    if batch != [] && (|batch| >= l.maxFeatures || bytes + size(f) > l.maxBytes) {
      TakenAfterFlush(batches, batch, f, size, l);
    } else {
      Taken(batches, batch, f, size, l);
    }
  }

  lemma Flush<T>(batches: seq<seq<T>>, batch: seq<T>, bytes: int, seen: seq<T>, size: T -> Size, l: Limits)
    requires Pending(batches, batch, bytes, seen, size, l)
    ensures |batch| >= l.maxFeatures || bytes >= l.maxBytes ==> Progress(batches + [batch], [], 0, seen, size, l)
    ensures |batch| < l.maxFeatures && bytes < l.maxBytes ==> Progress(batches, batch, bytes, seen, size, l)
  {
    Flushed(batches, batch, size, l);
  }

  /** What the last flush leaves. */
  lemma Finish<T>(batches: seq<seq<T>>, batch: seq<T>, bytes: int, seen: seq<T>, size: T -> Size, l: Limits)
    requires Progress(batches, batch, bytes, seen, size, l)
    ensures (if batch != [] then batches + [batch] else batches) == GreedySplit(seen, size, l)
  {
    var all := if batch != [] then batches + [batch] else batches;
    if batch != [] {
      Flushed(batches, batch, size, l);
    }
    assert Joined(all) == Consumed(all, []) == seen;
    SplitIsGreedy(seen, size, l);
    GreedyIsUnique(all, GreedySplit(seen, size, l), seen, size, l);
  }

  /** No other split that obeys the limits has fewer batches. */
  lemma SplitIsShortest<T>(s: seq<T>, size: T -> Size, l: Limits)
    ensures forall other :: AllObey(other, size, l) && Joined(other) == s ==> |GreedySplit(s, size, l)| <= |other|
  {
    SplitIsGreedy(s, size, l);
    forall other | AllObey(other, size, l) && Joined(other) == s ensures |GreedySplit(s, size, l)| <= |other| {
      GreedyIsOptimal(GreedySplit(s, size, l), other, size, l);
    }
  }

  method BoundedImportBatches<T>(features: seq<T>, size: T -> Size, l: Limits) returns (batches: seq<seq<T>>)
    ensures batches == GreedySplit(features, size, l)
    ensures Joined(batches) == features
    ensures NoneEmpty(batches) && AllObey(batches, size, l)
    ensures forall other :: AllObey(other, size, l) && Joined(other) == features ==> |batches| <= |other|
  {
    batches := [];
    var batch: seq<T> := [];
    var batchBytes := 0;
    for i := 0 to |features|
      invariant Progress(batches, batch, batchBytes, features[..i], size, l)
    {
      var feature := features[i];
      assert features[..i + 1] == features[..i] + [feature];
      Take(batches, batch, batchBytes, features[..i], feature, size, l);
      if batch != [] && (|batch| >= l.maxFeatures || batchBytes + size(feature) > l.maxBytes) {
        batches := batches + [batch];
        batch := [];
        batchBytes := 0;
      }
      batch := batch + [feature];
      batchBytes := batchBytes + size(feature);
      Flush(batches, batch, batchBytes, features[..i + 1], size, l);
      if |batch| >= l.maxFeatures || batchBytes >= l.maxBytes {
        batches := batches + [batch];
        batch := [];
        batchBytes := 0;
      }
    }
    assert features[..|features|] == features;
    Finish(batches, batch, batchBytes, features, size, l);
    SplitIsGreedy(features, size, l);
    SplitIsShortest(features, size, l);
    if batch != [] {
      batches := batches + [batch];
    }
  }
}
