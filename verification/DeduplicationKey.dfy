/** Callsign normalization and the text behind a QSO's deduplication key. SHA-256 is
    taken to be injective, so the key is the canonical text itself. */
module DeduplicationKey {
  import opened Wrappers
  import opened Ledger
  import opened Batches

  // ------------------------------------------------ normalize_callsign

  /** What str.upper() and str.split() know about characters. Only the ASCII half is
      fixed; an upper-case form may be several characters long. */
  datatype Alphabet = Alphabet(upper: char -> string, space: char -> bool)

  const ASCII := 128 as char

  predicate KnowsAscii(u: Alphabet) {
    forall c :: c < ASCII ==> u.upper(c) == [UpperChar(c)] && (u.space(c) <==> AsciiSpace(c))
  }

  predicate AsciiSpace(c: char) {
    c == ' ' || '\t' <= c <= '\r' || 28 <= c as int < 32
  }

  function UpperChar(c: char): char {
    if 'a' <= c <= 'z' then (c as int - 32) as char else c
  }

  function Upper(u: Alphabet, s: string): string {
    if s == "" then "" else u.upper(s[0]) + Upper(u, s[1..])
  }

  /** Length of the longest prefix without white space. */
  function WordLength(u: Alphabet, s: string): (n: nat)
    ensures n <= |s|
    ensures forall i :: 0 <= i < n ==> !u.space(s[i])
    ensures n < |s| ==> u.space(s[n])
  {
    if s == "" || u.space(s[0]) then 0 else 1 + WordLength(u, s[1..])
  }

  /** str.split() without arguments. */
  function Words(u: Alphabet, s: string): (ws: seq<string>)
    ensures forall w | w in ws :: IsWord(u, w)
    decreases |s|
  {
    if s == "" then []
    else if u.space(s[0]) then Words(u, s[1..])
    else [s[..WordLength(u, s)]] + Words(u, s[WordLength(u, s)..])
  }

  predicate IsWord(u: Alphabet, w: string) {
    w != "" && forall i :: 0 <= i < |w| ==> !u.space(w[i])
  }

  function Join(ws: seq<string>, separator: string): string {
    if ws == [] then ""
    else if |ws| == 1 then ws[0]
    else ws[0] + separator + Join(ws[1..], separator)
  }

  predicate CallsignChar(c: char) {
    'A' <= c <= 'Z' || '0' <= c <= '9' || c == '/' || c == ' ' || c == '-'
  }

  datatype CallsignError = InvalidCallsign

  function NormalizeCallsign(u: Alphabet, value: string): Result<string, CallsignError> {
    var callsign := Join(Words(u, Upper(u, value)), " ");
    if callsign == "" || |callsign| > 32 || exists i :: 0 <= i < |callsign| && !CallsignChar(callsign[i])
    then Failure(InvalidCallsign)
    else Success(callsign)
  }

  lemma {:induction false} UpperFixes(u: Alphabet, s: string)
    requires KnowsAscii(u) && forall i :: 0 <= i < |s| ==> s[i] < ASCII && UpperChar(s[i]) == s[i]
    ensures Upper(u, s) == s
    decreases |s|
  {
    if s != "" {
      UpperFixes(u, s[1..]);
      assert s == [s[0]] + s[1..];
    }
  }

  lemma {:induction false} WordLengthIs(u: Alphabet, s: string, n: nat)
    requires n <= |s| && (forall i :: 0 <= i < n ==> !u.space(s[i])) && (n < |s| ==> u.space(s[n]))
    ensures WordLength(u, s) == n
    decreases n
  {
    if n > 0 {
      WordLengthIs(u, s[1..], n - 1);
    }
  }

  lemma {:induction false} WordsOfJoin(u: Alphabet, ws: seq<string>)
    requires u.space(' ') && forall w | w in ws :: IsWord(u, w)
    ensures Words(u, Join(ws, " ")) == ws
    decreases |ws|
  {
    if ws != [] {
      var w, s := ws[0], Join(ws, " ");
      assert IsWord(u, w);
      WordLengthIs(u, s, |w|);
      assert s[..|w|] == w;
      if |ws| > 1 {
        var rest := Join(ws[1..], " ");
        assert s[|w|..] == " " + rest;
        assert (" " + rest)[1..] == rest;
        WordsOfJoin(u, ws[1..]);
      }
      assert ws == [w] + ws[1..];
    }
  }

  /** White space separates words, however much of it there is. */
  lemma {:induction false} WordsSplit(u: Alphabet, x: string, c: char, y: string)
    requires u.space(c)
    ensures Words(u, x + [c] + y) == Words(u, x) + Words(u, y)
    decreases |x|
  {
    var s := x + [c] + y;
    if x == "" {
      assert s[1..] == y;
    } else if u.space(x[0]) {
      assert s[1..] == x[1..] + [c] + y;
      WordsSplit(u, x[1..], c, y);
    } else {
      var n := WordLength(u, x);
      assert s[..n] == x[..n] && s[n..] == x[n..] + [c] + y;
      WordLengthIs(u, s, n);
      WordLengthPositive(u, x);
      WordsSplit(u, x[n..], c, y);
    }
  }

  lemma WordLengthPositive(u: Alphabet, s: string)
    requires s != "" && !u.space(s[0])
    ensures 0 < WordLength(u, s)
  {
  }

  lemma WordIsItself(u: Alphabet, w: string)
    requires IsWord(u, w)
    ensures Words(u, w) == [w] && Words(u, "") == []
  {
    WordLengthIs(u, w, |w|);
    assert w[|w|..] == "" && w[..|w|] == w;
  }

  /** What is assumed of the alphabet: the 26 lower-case letters have the 26 upper-case
      ones, no other character below 128 has another, and the white space below 128 is
      the blank, 9 to 13 and 28 to 31. */
  lemma AsciiIs(u: Alphabet, c: char)
    requires KnowsAscii(u) && c as int < 128
    ensures var n := c as int;
      && u.upper(c) == (if 97 <= n <= 122 then [(n - 32) as char] else [c])
      && (u.space(c) <==> n in {9, 10, 11, 12, 13, 28, 29, 30, 31, 32})
  {
  }

  /** A letter from A to Z, a digit, the slash, the blank or the hyphen, by code. */
  ghost predicate MayStand(c: char) {
    var n := c as int;
    65 <= n <= 90 || 48 <= n <= 57 || n == 47 || n == 32 || n == 45
  }

  /** A callsign is accepted exactly if its words in upper case, with one blank between
      them, make a text of 1 to 32 such characters; and that text is what it is
      normalized to. */
  lemma NormalizeCallsignIs(u: Alphabet, value: string)
    ensures var text := Join(Words(u, Upper(u, value)), " ");
      && (NormalizeCallsign(u, value).Success? <==> 1 <= |text| <= 32 && forall c | c in text :: MayStand(c))
      && (NormalizeCallsign(u, value).Success? ==> NormalizeCallsign(u, value).value == text)
  {
    var text := Join(Words(u, Upper(u, value)), " ");
    assert forall c :: CallsignChar(c) <==> MayStand(c);
    assert (exists i :: 0 <= i < |text| && !CallsignChar(text[i])) <==> !(forall c | c in text :: CallsignChar(c));
  }

  /** Normalizing a normalized callsign changes nothing, so the key, which
      normalizes again, is computed from the stored callsign. */
  lemma NormalizeIsIdempotent(u: Alphabet, value: string)
    requires KnowsAscii(u) && NormalizeCallsign(u, value).Success?
    ensures NormalizeCallsign(u, NormalizeCallsign(u, value).value) == NormalizeCallsign(u, value)
  {
    UpperFixes(u, NormalizeCallsign(u, value).value);
    WordsOfJoin(u, Words(u, Upper(u, value)));
  }

  // ------------------------------------------------ qso_deduplication_key

  function Digit(n: nat): char
    requires n < 10
  {
    ('0' as int + n) as char
  }

  /** An injective rendering of an instant, free of '|', standing for isoformat(). */
  function IsoText(t: nat): string {
    if t < 10 then [Digit(t)] else IsoText(t / 10) + [Digit(t % 10)]
  }

  function Text(value: Option<string>): string {
    if value.Some? then value.value else ""
  }

  function Parts(u: Alphabet, aid: Id, r: Record, callsign: string): seq<string> {
    [aid, callsign, IsoText(r.occurredAt), Upper(u, Text(r.band)), Upper(u, Text(r.mode)),
     Text(r.hunterId), Text(r.workedEntityId)]
  }

  function QsoDeduplicationKey(u: Alphabet, aid: Id, r: Record): Result<string, CallsignError> {
    var callsign := NormalizeCallsign(u, r.workedCallsign);
    if callsign.Failure? then Failure(callsign.error) else Success(Join(Parts(u, aid, r, callsign.value), "|"))
  }

  predicate PipeFree(s: string) {
    forall i :: 0 <= i < |s| ==> s[i] != '|'
  }

  /** A band or mode as normalize_band and normalize_mode return it: absent, or a
      word over capital letters and digits. */
  predicate IsCode(code: Option<string>) {
    code.Some? ==>
      && code.value != ""
      && forall i :: 0 <= i < |code.value| ==> 'A' <= code.value[i] <= 'Z' || '0' <= code.value[i] <= '9'
  }

  /** What normalize_qso and qso_deduplication_key leave in a record; an empty id is absent. */
  predicate Normalized(u: Alphabet, aid: Id, r: Record) {
    && NormalizeCallsign(u, r.workedCallsign) == Success(r.workedCallsign)
    && IsCode(r.band)
    && IsCode(r.mode)
    && r.hunterId != Some("")
    && r.workedEntityId != Some("")
    && QsoDeduplicationKey(u, aid, r) == Success(r.deduplicationKey)
  }

  lemma {:induction false} IsoTextShape(t: nat)
    ensures IsoText(t) != "" && PipeFree(IsoText(t))
    decreases t
  {
    if t >= 10 {
      IsoTextShape(t / 10);
    }
  }

  lemma {:induction false} IsoTextInjective(t: nat, u: nat)
    requires IsoText(t) == IsoText(u)
    ensures t == u
    decreases t
  {
    var s := IsoText(t);
    IsoTextShape(t / 10);
    IsoTextShape(u / 10);
    if t < 10 || u < 10 {
      assert |s| == 1;
      assert s[0] == Digit(t % 10) && s[0] == Digit(u % 10);
    } else {
      assert s[|s| - 1] == Digit(t % 10) == Digit(u % 10);
      assert s[..|s| - 1] == IsoText(t / 10) == IsoText(u / 10);
      IsoTextInjective(t / 10, u / 10);
    }
  }

  lemma SplitAtPipe(a: string, x: string, b: string, y: string)
    requires PipeFree(a) && PipeFree(b) && a + "|" + x == b + "|" + y
    ensures a == b && x == y
  {
    var s := a + "|" + x;
    assert forall i :: 0 <= i < |a| ==> s[i] == a[i];
    assert forall i :: 0 <= i < |b| ==> s[i] == b[i];
    assert s[|a|] == '|' && s[|b|] == '|';
    assert |a| == |b|;
    assert s[..|a|] == a && s[..|b|] == b;
    assert s[|a| + 1..] == x && s[|b| + 1..] == y;
  }

  /** Joining is injective when no part but the last contains the separator. */
  lemma {:induction false} JoinInjective(ps: seq<string>, qs: seq<string>)
    requires |ps| == |qs| && Join(ps, "|") == Join(qs, "|")
    requires forall i :: 0 <= i < |ps| - 1 ==> PipeFree(ps[i]) && PipeFree(qs[i])
    ensures ps == qs
    decreases |ps|
  {
    if |ps| > 1 {
      SplitAtPipe(ps[0], Join(ps[1..], "|"), qs[0], Join(qs[1..], "|"));
      JoinInjective(ps[1..], qs[1..]);
      assert ps == [ps[0]] + ps[1..] && qs == [qs[0]] + qs[1..];
    } else if |ps| == 1 {
      assert ps == [ps[0]] && qs == [qs[0]];
    }
  }

  lemma TextInjective(a: Option<string>, b: Option<string>)
    requires a != Some("") && b != Some("") && Text(a) == Text(b)
    ensures a == b
  {
  }

  // ------------------------------------------------ when two contacts share a key

  /** The end of the key: the two ids around one separator. */
  function Ids(r: Record): string {
    Text(r.hunterId) + "|" + Text(r.workedEntityId)
  }

  predicate SameContact(r: Record, q: Record) {
    && r.workedCallsign == q.workedCallsign
    && r.occurredAt == q.occurredAt
    && r.band == q.band
    && r.mode == q.mode
  }

  predicate PipeFreeHunter(r: Record) {
    PipeFree(Text(r.hunterId))
  }

  predicate PipeFreeEntity(r: Record) {
    PipeFree(Text(r.workedEntityId))
  }

  /** The key of a normalized record, cut behind the mode. */
  function Front(aid: Id, r: Record): seq<string> {
    [aid, r.workedCallsign, IsoText(r.occurredAt), Text(r.band), Text(r.mode), Ids(r)]
  }

  lemma {:induction false} JoinLastTwo(ps: seq<string>, x: string, y: string)
    ensures Join(ps + [x, y], "|") == Join(ps + [x + "|" + y], "|")
    decreases |ps|
  {
    if ps == [] {
      assert ps + [x, y] == [x, y] && ps + [x + "|" + y] == [x + "|" + y];
      assert [x, y][1..] == [y];
    } else {
      JoinLastTwo(ps[1..], x, y);
      assert (ps + [x, y])[1..] == ps[1..] + [x, y];
      assert (ps + [x + "|" + y])[1..] == ps[1..] + [x + "|" + y];
    }
  }

  lemma CodeIsUpper(u: Alphabet, code: Option<string>)
    requires KnowsAscii(u) && IsCode(code)
    ensures Upper(u, Text(code)) == Text(code) && PipeFree(Text(code))
  {
    UpperFixes(u, Text(code));
  }

  lemma KeyOfNormalized(u: Alphabet, aid: Id, r: Record)
    requires KnowsAscii(u) && Normalized(u, aid, r)
    ensures r.deduplicationKey == Join(Front(aid, r), "|")
  {
    CodeIsUpper(u, r.band);
    CodeIsUpper(u, r.mode);
    var ps := [aid, r.workedCallsign, IsoText(r.occurredAt), Text(r.band), Text(r.mode)];
    assert Parts(u, aid, r, r.workedCallsign) == ps + [Text(r.hunterId), Text(r.workedEntityId)];
    JoinLastTwo(ps, Text(r.hunterId), Text(r.workedEntityId));
    assert Front(aid, r) == ps + [Ids(r)];
  }

  lemma FrontPipeFree(u: Alphabet, aid: Id, r: Record)
    requires KnowsAscii(u) && PipeFree(aid) && Normalized(u, aid, r)
    ensures forall i :: 0 <= i < 5 ==> PipeFree(Front(aid, r)[i])
  {
    CodeIsUpper(u, r.band);
    CodeIsUpper(u, r.mode);
    IsoTextShape(r.occurredAt);
  }

  lemma FrontInjective(aid: Id, r: Record, q: Record)
    requires Front(aid, r) == Front(aid, q) && IsCode(r.band) && IsCode(q.band) && IsCode(r.mode) && IsCode(q.mode)
    ensures SameContact(r, q) && Ids(r) == Ids(q)
  {
    var x, y := Front(aid, r), Front(aid, q);
    assert x[1] == y[1] && x[2] == y[2] && x[3] == y[3] && x[4] == y[4] && x[5] == y[5];
    IsoTextInjective(r.occurredAt, q.occurredAt);
    TextInjective(r.band, q.band);
    TextInjective(r.mode, q.mode);
  }

  /** Two records of one activation have one key exactly when callsign, instant, band
      and mode agree and their two ids read the same with a separator in between. */
  lemma KeysMeet(u: Alphabet, aid: Id, r: Record, q: Record)
    requires KnowsAscii(u) && PipeFree(aid) && Normalized(u, aid, r) && Normalized(u, aid, q)
    ensures r.deduplicationKey == q.deduplicationKey <==> SameContact(r, q) && Ids(r) == Ids(q)
  {
    KeyOfNormalized(u, aid, r);
    KeyOfNormalized(u, aid, q);
    if r.deduplicationKey == q.deduplicationKey {
      FrontPipeFree(u, aid, r);
      FrontPipeFree(u, aid, q);
      JoinInjective(Front(aid, r), Front(aid, q));
      FrontInjective(aid, r, q);
    }
  }

  /** The mirror image of SplitAtPipe: the last separator. */
  lemma SplitAtLastPipe(a: string, x: string, b: string, y: string)
    requires PipeFree(x) && PipeFree(y) && a + "|" + x == b + "|" + y
    ensures a == b && x == y
  {
    var s := a + "|" + x;
    assert s[|a|] == '|' && s[|b|] == '|';
    assert forall i :: |a| < i < |s| ==> s[i] == x[i - |a| - 1];
    assert forall i :: |b| < i < |s| ==> s[i] == y[i - |b| - 1];
    assert |a| == |b|;
    assert s[..|a|] == a && s[..|b|] == b;
    assert s[|a| + 1..] == x && s[|b| + 1..] == y;
  }

  lemma SameIdsSameRecord(r: Record, q: Record)
    requires SameContact(r, q) && r.deduplicationKey == q.deduplicationKey
    requires Text(r.hunterId) == Text(q.hunterId) && Text(r.workedEntityId) == Text(q.workedEntityId)
    requires r.hunterId != Some("") && q.hunterId != Some("")
    requires r.workedEntityId != Some("") && q.workedEntityId != Some("")
    ensures r == q
  {
    TextInjective(r.hunterId, q.hunterId);
    TextInjective(r.workedEntityId, q.workedEntityId);
  }

  /** One key, one record, if neither hunter id, or neither worked-entity id, contains
      the separator. */
  lemma KeyInjective(u: Alphabet, aid: Id, r: Record, q: Record)
    requires KnowsAscii(u) && PipeFree(aid) && Normalized(u, aid, r) && Normalized(u, aid, q)
    requires (PipeFreeHunter(r) && PipeFreeHunter(q)) || (PipeFreeEntity(r) && PipeFreeEntity(q))
    requires r.deduplicationKey == q.deduplicationKey
    ensures r == q
  {
    KeysMeet(u, aid, r, q);
    var a, x, b, y := Text(r.hunterId), Text(r.workedEntityId), Text(q.hunterId), Text(q.workedEntityId);
    if PipeFreeHunter(r) && PipeFreeHunter(q) {
      SplitAtPipe(a, x, b, y);
    } else {
      SplitAtLastPipe(a, x, b, y);
    }
    SameIdsSameRecord(r, q);
  }

  // ------------------------------------------------ when a contact has its key for itself

  ghost predicate OwnsItsKey(u: Alphabet, aid: Id, r: Record) {
    forall q | Normalized(u, aid, q) && q.deduplicationKey == r.deduplicationKey :: q == r
  }

  function Optional(s: string): Option<string> {
    if s == "" then None else Some(s)
  }

  /** The record whose ids are split at another separator of the same text. */
  function Resplit(r: Record, hunter: string, entity: string): Record {
    r.(hunterId := Optional(hunter), workedEntityId := Optional(entity))
  }

  lemma ResplitShares(u: Alphabet, aid: Id, r: Record, hunter: string, entity: string)
    requires KnowsAscii(u) && Normalized(u, aid, r) && hunter + "|" + entity == Ids(r)
    ensures Normalized(u, aid, Resplit(r, hunter, entity))
  {
    var q := Resplit(r, hunter, entity);
    var ps := [aid, r.workedCallsign, IsoText(r.occurredAt), Upper(u, Text(r.band)), Upper(u, Text(r.mode))];
    assert Parts(u, aid, r, r.workedCallsign) == ps + [Text(r.hunterId), Text(r.workedEntityId)];
    assert Parts(u, aid, q, r.workedCallsign) == ps + [hunter, entity];
    JoinLastTwo(ps, Text(r.hunterId), Text(r.workedEntityId));
    JoinLastTwo(ps, hunter, entity);
  }

  lemma SecondSplit(r: Record) returns (hunter: string, entity: string)
    requires !PipeFreeHunter(r) || !PipeFreeEntity(r)
    ensures hunter + "|" + entity == Ids(r) && |hunter| != |Text(r.hunterId)|
  {
    var h, e := Text(r.hunterId), Text(r.workedEntityId);
    if !PipeFreeHunter(r) {
      var i: nat :| i < |h| && h[i] == '|';
      hunter, entity := h[..i], h[i + 1..] + "|" + e;
      assert h == h[..i] + "|" + h[i + 1..];
    } else {
      var i: nat :| i < |e| && e[i] == '|';
      hunter, entity := h + "|" + e[..i], e[i + 1..];
      assert e == e[..i] + "|" + e[i + 1..];
    }
  }

  lemma OnlyPipe(h: string, e: string, i: nat)
    requires PipeFree(h) && PipeFree(e) && i < |h + "|" + e| && (h + "|" + e)[i] == '|'
    ensures i == |h|
  {
  }

  lemma OneSplit(a: string, x: string, b: string, y: string)
    requires PipeFree(a) && PipeFree(x) && a + "|" + x == b + "|" + y
    ensures a == b && x == y
  {
    var s := a + "|" + x;
    assert s[|b|] == '|';
    OnlyPipe(a, x, |b|);
    assert s[..|a|] == a && s[..|b|] == b;
    assert s[|a| + 1..] == x && s[|b| + 1..] == y;
  }

  /** A contact is the only one with its key if and only if neither of its ids
      contains the separator. */
  lemma KeyIsOwn(u: Alphabet, aid: Id, r: Record)
    requires KnowsAscii(u) && PipeFree(aid) && Normalized(u, aid, r)
    ensures OwnsItsKey(u, aid, r) <==> PipeFreeHunter(r) && PipeFreeEntity(r)
  {
    if PipeFreeHunter(r) && PipeFreeEntity(r) {
      forall q | Normalized(u, aid, q) && q.deduplicationKey == r.deduplicationKey ensures q == r {
        KeysMeet(u, aid, r, q);
        OneSplit(Text(r.hunterId), Text(r.workedEntityId), Text(q.hunterId), Text(q.workedEntityId));
        SameIdsSameRecord(r, q);
      }
    } else {
      var hunter, entity := SecondSplit(r);
      ResplitShares(u, aid, r, hunter, entity);
      assert Text(Resplit(r, hunter, entity).hunterId) == hunter;
      assert Resplit(r, hunter, entity) != r;
    }
  }

  // ------------------------------------------------ batches against single inserts

  /** Submitting the records of the batch one by one, in whatever order and however
      often each is repeated, has the outcome of the batch and leaves its tables. */
  ghost predicate AnySequence(t: Tables, aid: Id, batch: seq<Record>) {
    forall sequence | SameRecords(batch, sequence) :: InsertEach(t, aid, sequence) == InsertBatch(t, aid, batch)
  }

  /** No two contacts of the batch that are not stored yet differ only in where the
      separator stands between their ids. */
  ghost predicate Unambiguous(qsos: map<string, Qso>, batch: seq<Record>) {
    forall r, q | r in batch && q in batch && SameContact(r, q) && Ids(r) == Ids(q) && r.deduplicationKey !in qsos ::
      r.hunterId == q.hunterId
  }

  lemma UnambiguousIsKeyDetermines(u: Alphabet, qsos: map<string, Qso>, aid: Id, batch: seq<Record>)
    requires KnowsAscii(u) && PipeFree(aid) && forall r | r in batch :: Normalized(u, aid, r)
    ensures Unambiguous(qsos, batch) <==> KeyDetermines(qsos, batch)
  {
    forall r, q | r in batch && q in batch
      ensures r.deduplicationKey == q.deduplicationKey <==> SameContact(r, q) && Ids(r) == Ids(q)
      ensures r.deduplicationKey == q.deduplicationKey && r.hunterId == q.hunterId ==> r == q
    {
      KeysMeet(u, aid, r, q);
      if r.deduplicationKey == q.deduplicationKey && r.hunterId == q.hunterId {
        SameHunterSameEntity(r, q);
        SameIdsSameRecord(r, q);
      }
    }
  }

  lemma SameHunterSameEntity(r: Record, q: Record)
    requires Ids(r) == Ids(q) && r.hunterId == q.hunterId
    ensures Text(r.workedEntityId) == Text(q.workedEntityId)
  {
    var n := |Text(r.hunterId)| + 1;
    assert Ids(r)[n..] == Text(r.workedEntityId) && Ids(q)[n..] == Text(q.workedEntityId);
  }

  /** A batch of normalized records inside the window is worth any sequence of single
      inserts of the same records if and only if it is unambiguous. */
  lemma BatchIsAnySequence(u: Alphabet, t: Tables, aid: Id, batch: seq<Record>)
    requires KnowsAscii(u) && PipeFree(aid) && forall r | r in batch :: Normalized(u, aid, r)
    requires Accepts(t, aid, batch)
    ensures AnySequence(t, aid, batch) <==> Unambiguous(t.ledger.qsos, batch)
  {
    UnambiguousIsKeyDetermines(u, t.ledger.qsos, aid, batch);
    BatchOrderIrrelevant(t, aid, batch);
    forall sequence | SameRecords(batch, sequence)
      ensures InsertEach(t, aid, sequence) == InsertBatch(t, aid, sequence)
    {
      BatchIsEach(t, aid, sequence);
    }
  }

  /** In particular, if no hunter id, or no worked-entity id, contains the separator. */
  lemma PipeFreeIsUnambiguous(u: Alphabet, qsos: map<string, Qso>, aid: Id, batch: seq<Record>)
    requires KnowsAscii(u) && PipeFree(aid) && forall r | r in batch :: Normalized(u, aid, r)
    requires (forall r | r in batch :: PipeFreeHunter(r)) || (forall r | r in batch :: PipeFreeEntity(r))
    ensures Unambiguous(qsos, batch)
  {
    forall r, q | r in batch && q in batch && SameContact(r, q) && Ids(r) == Ids(q) ensures r.hunterId == q.hunterId {
      KeysMeet(u, aid, r, q);
      KeyInjective(u, aid, r, q);
    }
  }
}
