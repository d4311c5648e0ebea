/** Multipart request bodies (section 5.1.1 of RFC 2046) as whole byte strings: search
    for a delimiter, parsing, and printing. */
module Multipart {
  import opened Wrappers

  type Byte = bv8

  type Bytes = seq<Byte>

  const CR: Byte := 13
  const LF: Byte := 10
  const CRLF: Bytes := [CR, LF]
  const DASHES: Bytes := [45, 45]

  const MAX_METADATA: nat := 4 * 1024 * 1024

  // ------------------------------------------------ first occurrences

  predicate At(s: Bytes, d: Bytes, i: nat) {
    i + |d| <= |s| && s[i..i + |d|] == d
  }

  ghost predicate First(s: Bytes, d: Bytes, i: nat) {
    At(s, d, i) && forall j: nat :: j < i ==> !At(s, d, j)
  }

  /** The position of the first occurrence of d in s. */
  ghost function Find(s: Bytes, d: Bytes): (r: Option<nat>)
    ensures r.Some? ==> First(s, d, r.value)
    ensures r.None? ==> forall j: nat :: !First(s, d, j)
  {
    if i: nat :| First(s, d, i) then Some(i) else None
  }

  /** Something occurs exactly when it has a first occurrence. */
  lemma {:induction false} OccursFirst(s: Bytes, d: Bytes, i: nat)
    requires At(s, d, i)
    ensures Find(s, d).Some? && Find(s, d).value <= i
    decreases i
  {
    if j: nat :| j < i && At(s, d, j) {
      OccursFirst(s, d, j);
    } else {
      FirstIsFound(s, d, i);
    }
  }

  ghost predicate Absent(s: Bytes, d: Bytes) {
    forall j: nat :: !At(s, d, j)
  }

  lemma NotFound(s: Bytes, d: Bytes)
    ensures Find(s, d).None? <==> Absent(s, d)
  {
    if i: nat :| At(s, d, i) {
      OccursFirst(s, d, i);
    }
  }

  /** The byte-string search of the program's runtime. */
  method Search(s: Bytes, d: Bytes) returns (r: Option<nat>)
    ensures r == Find(s, d)
  {
    var i := 0;
    while i + |d| <= |s|
      invariant forall j: nat :: j < i ==> !At(s, d, j)
    {
      if s[i..i + |d|] == d {
        FirstIsFound(s, d, i);
        return Some(i);
      }
      i := i + 1;
    }
    NotFound(s, d);
    return None;
  }

  lemma FirstIsFound(s: Bytes, d: Bytes, i: nat)
    requires First(s, d, i)
    ensures Find(s, d) == Some(i)
  {
    var r := Find(s, d);
    assert r.Some? ==> At(s, d, r.value);
  }

  lemma AtIndex(s: Bytes, d: Bytes, i: nat, k: nat)
    requires At(s, d, i) && k < |d|
    ensures s[i + k] == d[k]
  {
    assert s[i..i + |d|][k] == s[i + k];
  }

  lemma AtShifts(s: Bytes, d: Bytes, drop: nat, i: nat)
    requires drop <= |s|
    ensures At(s[drop..], d, i) <==> At(s, d, drop + i)
  {
    if drop + i + |d| <= |s| {
      assert s[drop..][i..i + |d|] == s[drop + i..drop + i + |d|];
    }
  }

  lemma AtInFront(a: Bytes, b: Bytes, d: Bytes, i: nat)
    requires i + |d| <= |a|
    ensures At(a + b, d, i) <==> At(a, d, i)
  {
    assert (a + b)[i..i + |d|] == a[i..i + |d|];
  }

  /** What a buffer without the delimiter may forget: everything but its last |d| - 1 bytes. */
  lemma ForgetsNothing(buffer: Bytes, more: Bytes, d: Bytes, drop: nat)
    requires Find(buffer, d).None? && drop <= |buffer| && drop + |d| <= |buffer| + 1
    ensures Find(buffer + more, d) ==
      match Find(buffer[drop..] + more, d) case Some(i) => Some(drop + i) case None => None
  {
    var all, rest := buffer + more, buffer[drop..] + more;
    assert rest == all[drop..];
    NotFound(buffer, d);
    forall j: nat | j < drop ensures !At(all, d, j) {
      AtInFront(buffer, more, d, j);
    }
    forall j: nat ensures At(rest, d, j) <==> At(all, d, drop + j) {
      AtShifts(all, d, drop, j);
    }
    FindShifts(all, rest, d, drop);
  }

  lemma FindShifts(all: Bytes, rest: Bytes, d: Bytes, drop: nat)
    requires forall j: nat :: j < drop ==> !At(all, d, j)
    requires forall j: nat :: At(rest, d, j) <==> At(all, d, drop + j)
    ensures Find(all, d) == match Find(rest, d) case Some(i) => Some(drop + i) case None => None
  {
    var found := Find(rest, d);
    if found.Some? {
      forall j: nat | j < drop + found.value ensures !At(all, d, j) {
        if drop <= j {
          assert At(rest, d, j - drop) <==> At(all, d, drop + (j - drop));
        }
      }
      FirstIsFound(all, d, drop + found.value);
    } else {
      NotFound(rest, d);
      forall j: nat ensures !At(all, d, j) {
        if drop <= j {
          assert At(rest, d, j - drop) <==> At(all, d, drop + (j - drop));
        }
      }
      NotFound(all, d);
    }
  }

  /** The first occurrence in what has been read is the first one in the whole input. */
  lemma FoundEarly(buffer: Bytes, more: Bytes, d: Bytes)
    requires Find(buffer, d).Some?
    ensures Find(buffer + more, d) == Find(buffer, d)
  {
    var i := Find(buffer, d).value;
    forall j: nat | j <= i ensures At(buffer + more, d, j) <==> At(buffer, d, j) {
      AtInFront(buffer, more, d, j);
    }
    FirstIsFound(buffer + more, d, i);
  }

  /** A delimiter whose first byte does not come back inside it. */
  ghost predicate Unbordered(d: Bytes) {
    d != [] && forall k :: 1 <= k < |d| ==> d[k] != d[0]
  }

  /** A text without such a delimiter, followed by it, has its first occurrence there. */
  lemma DelimiterEndsText(text: Bytes, d: Bytes, rest: Bytes)
    requires Unbordered(d) && Find(text, d).None?
    ensures Find(text + d + rest, d) == Some(|text|)
  {
    var s := text + d + rest;
    NotFound(text, d);
    assert s[|text|..|text| + |d|] == d && s[|text|] == d[0];
    forall j: nat | j < |text| ensures !At(s, d, j) {
      if j + |d| <= |text| {
        assert s == text + (d + rest);
        AtInFront(text, d + rest, d, j);
      } else if At(s, d, j) {
        AtIndex(s, d, j, |text| - j);
      }
    }
    FirstIsFound(s, d, |text|);
  }

  // ------------------------------------------------ parsing

  datatype Part = Part(headers: seq<Bytes>, body: Bytes)

  datatype Error = Ended | BadOpening | MissingFieldName | MetadataTooLarge | BadMetadata | BadSuffix | NoFile

  /** A part that is not the uploaded file: another field, metadata that is no JSON
      object, or metadata, whose fields may include the path of an upload. */
  datatype Metadata = OtherField | Malformed | Fields(namePath: bool)

  /** What the header parser says about a part: whether its disposition names a field, and
      whether it is the uploaded file; and what the JSON decoder says about the others. */
  datatype HeaderRules = HeaderRules(
    named: seq<Bytes> -> bool,
    isFile: seq<Bytes> -> bool,
    metadata: (seq<Bytes>, Bytes) -> Metadata)

  datatype Header = Header(lines: seq<Bytes>, rest: Bytes)

  function Delimiter(boundary: Bytes): Bytes {
    CRLF + DASHES + boundary
  }

  /** The bytes of RFC 2046: a line break is carriage return and line feed, and the
      boundary stands behind one and two hyphens. */
  lemma BoundaryBytes(boundary: Bytes)
    ensures CRLF == [13, 10] && DASHES == [45, 45]
    ensures Delimiter(boundary) == [13, 10, 45, 45] + boundary
  {
    assert CRLF + DASHES == [13, 10, 45, 45];
  }

  /** Header lines up to the first empty one. */
  ghost function ParseHeader(s: Bytes): (r: Result<Header, Error>)
    ensures r.Success? ==> |r.value.rest| < |s|
    decreases |s|
  {
    match Find(s, CRLF)
    case None => Failure(Ended)
    case Some(i) =>
      if i == 0 then Success(Header([], s[2..]))
      else match ParseHeader(s[i + 2..])
        case Failure(e) => Failure(e)
        case Success(h) => Success(Header([s[..i]] + h.lines, h.rest))
  }

  datatype Read = Read(part: Part, after: Bytes)

  /** One part, up to and including the delimiter that ends it. */
  ghost function ParsePart(s: Bytes, d: Bytes, rules: HeaderRules): (r: Result<Read, Error>)
    ensures r.Success? ==> |r.value.after| < |s|
  {
    var header := ParseHeader(s);
    if header.Failure? then Failure(header.error)
    else if !rules.named(header.value.lines) then Failure(MissingFieldName)
    else match Find(header.value.rest, d)
      case None => Failure(Ended)
      case Some(i) =>
        var part := Part(header.value.lines, header.value.rest[..i]);
        if !rules.isFile(part.headers) && |part.body| > MAX_METADATA then Failure(MetadataTooLarge)
        else if IsMalformed(part, rules) then Failure(BadMetadata)
        else Success(Read(part, header.value.rest[i + |d|..]))
  }

  ghost function ParseParts(s: Bytes, d: Bytes, rules: HeaderRules): Result<seq<Part>, Error>
    decreases |s|
  {
    var read := ParsePart(s, d, rules);
    if read.Failure? then Failure(read.error)
    else
      var after := read.value.after;
      if |after| < 2 then Failure(Ended)
      else if after[..2] == DASHES then Success([read.value.part])
      else if after[..2] != CRLF then Failure(BadSuffix)
      else match ParseParts(after[2..], d, rules)
        case Failure(e) => Failure(e)
        case Success(parts) => Success([read.value.part] + parts)
  }

  predicate IsMalformed(p: Part, rules: HeaderRules) {
    !rules.isFile(p.headers) && rules.metadata(p.headers, p.body).Malformed?
  }

  /** The parts give the result an upload path: a file does, and so does metadata with
      a field of that name. */
  predicate HasFile(parts: seq<Part>, rules: HeaderRules) {
    exists i :: 0 <= i < |parts| &&
                (rules.isFile(parts[i].headers) || rules.metadata(parts[i].headers, parts[i].body) == Fields(true))
  }

  ghost function Parse(s: Bytes, boundary: Bytes, rules: HeaderRules): Result<seq<Part>, Error> {
    match Find(s, CRLF)
    case None => Failure(Ended)
    case Some(i) =>
      if s[..i] != DASHES + boundary then Failure(BadOpening)
      else
        var parts := ParseParts(s[i + 2..], Delimiter(boundary), rules);
        if parts.Success? && !HasFile(parts.value, rules) then Failure(NoFile) else parts
  }

  lemma {:induction false} HeaderNeverLacksFile(s: Bytes)
    ensures ParseHeader(s) != Failure(NoFile)
    decreases |s|
  {
    if Find(s, CRLF).Some? && Find(s, CRLF).value > 0 {
      HeaderNeverLacksFile(s[Find(s, CRLF).value + 2..]);
    }
  }

  lemma {:induction false} PartsNeverLackFile(s: Bytes, d: Bytes, rules: HeaderRules)
    ensures ParseParts(s, d, rules) != Failure(NoFile)
    decreases |s|
  {
    HeaderNeverLacksFile(s);
    var read := ParsePart(s, d, rules);
    if read.Success? && |read.value.after| >= 2 {
      PartsNeverLackFile(read.value.after[2..], d, rules);
    }
  }

  /** The parts of a request that opens with the boundary and all of whose parts parse. */
  ghost function AllRead(s: Bytes, boundary: Bytes, rules: HeaderRules): Option<seq<Part>> {
    match Find(s, CRLF)
    case None => None
    case Some(i) =>
      if s[..i] != DASHES + boundary then None
      else match ParseParts(s[i + 2..], Delimiter(boundary), rules)
        case Failure(_) => None
        case Success(parts) => Some(parts)
  }

  ghost predicate GivesFile(p: Part, rules: HeaderRules) {
    rules.isFile(p.headers) || rules.metadata(p.headers, p.body) == Fields(true)
  }

  ghost predicate SomeGivesFile(parts: seq<Part>, rules: HeaderRules) {
    exists p :: p in parts && GivesFile(p, rules)
  }

  lemma HasFileIs(parts: seq<Part>, rules: HeaderRules)
    ensures HasFile(parts, rules) <==> SomeGivesFile(parts, rules)
  {
    if p :| p in parts && GivesFile(p, rules) {
      var i: int :| 0 <= i < |parts| && parts[i] == p;
      assert rules.isFile(parts[i].headers) || rules.metadata(parts[i].headers, parts[i].body) == Fields(true);
    }
    if HasFile(parts, rules) {
      var i: int :| 0 <= i < |parts| &&
        (rules.isFile(parts[i].headers) || rules.metadata(parts[i].headers, parts[i].body) == Fields(true));
      assert parts[i] in parts && GivesFile(parts[i], rules);
    }
  }

  /** A request whose parts all parse is accepted with these parts if one of them is the
      uploaded file or metadata that names one, and refused for lack of a file otherwise. */
  lemma AcceptedIffFile(s: Bytes, boundary: Bytes, rules: HeaderRules)
    ensures Parse(s, boundary, rules).Success? <==>
      AllRead(s, boundary, rules).Some? && SomeGivesFile(AllRead(s, boundary, rules).value, rules)
    ensures Parse(s, boundary, rules).Success? ==> Parse(s, boundary, rules).value == AllRead(s, boundary, rules).value
    ensures Parse(s, boundary, rules) == Failure(NoFile) <==>
      AllRead(s, boundary, rules).Some? && !SomeGivesFile(AllRead(s, boundary, rules).value, rules)
  {
    if Find(s, CRLF).Some? {
      var rest := s[Find(s, CRLF).value + 2..];
      PartsNeverLackFile(rest, Delimiter(boundary), rules);
      var parsed := ParseParts(rest, Delimiter(boundary), rules);
      if parsed.Success? {
        HasFileIs(parsed.value, rules);
      }
    }
  }

  // ------------------------------------------------ printing

  function PrintHeader(lines: seq<Bytes>): Bytes {
    if lines == [] then CRLF else lines[0] + CRLF + PrintHeader(lines[1..])
  }

  function PrintPart(p: Part, d: Bytes): Bytes {
    PrintHeader(p.headers) + p.body + d
  }

  function PrintParts(parts: seq<Part>, d: Bytes): Bytes
    requires parts != []
  {
    if |parts| == 1 then PrintPart(parts[0], d) + DASHES
    else PrintPart(parts[0], d) + CRLF + PrintParts(parts[1..], d)
  }

  function Print(parts: seq<Part>, boundary: Bytes): Bytes
    requires parts != []
  {
    DASHES + boundary + CRLF + PrintParts(parts, Delimiter(boundary))
  }

  /** A header line is not empty and does not contain a line break. */
  ghost predicate Lines(lines: seq<Bytes>) {
    forall line :: line in lines ==> line != [] && Find(line, CRLF).None?
  }

  ghost predicate Printable(p: Part, d: Bytes, rules: HeaderRules) {
    && Lines(p.headers)
    && Find(p.body, d).None?
    && rules.named(p.headers)
    && (rules.isFile(p.headers) || |p.body| <= 4194304)
    && (rules.isFile(p.headers) || rules.metadata(p.headers, p.body) != Malformed)
  }

  ghost predicate AllPrintable(parts: seq<Part>, d: Bytes, rules: HeaderRules) {
    forall p :: p in parts ==> Printable(p, d, rules)
  }

  lemma NonemptyLine(line: Bytes, rest: Bytes)
    requires Find(line, CRLF).None?
    ensures Find(line + CRLF + rest, CRLF) == Some(|line|)
  {
    DelimiterEndsText(line, CRLF, rest);
  }

  lemma Associates(a: Bytes, b: Bytes, c: Bytes)
    ensures (a + b) + c == a + (b + c)
  {
  }

  lemma EmptyLine(rest: Bytes)
    ensures ParseHeader(CRLF + rest) == Success(Header([], rest))
  {
    var s := CRLF + rest;
    assert At(s, CRLF, 0);
    FirstIsFound(s, CRLF, 0);
    assert s[2..] == rest;
  }

  lemma HeaderLine(line: Bytes, more: Bytes)
    requires line != [] && Find(line, CRLF).None? && ParseHeader(more).Success?
    ensures ParseHeader(line + CRLF + more) ==
            Success(Header([line] + ParseHeader(more).value.lines, ParseHeader(more).value.rest))
  {
    var s := line + CRLF + more;
    NonemptyLine(line, more);
    assert s[..|line|] == line && s[|line| + 2..] == more;
  }

  lemma TailLines(lines: seq<Bytes>)
    requires Lines(lines) && lines != []
    ensures Lines(lines[1..]) && lines[0] != [] && Find(lines[0], CRLF).None?
  {
    assert lines[0] in lines && forall line :: line in lines[1..] ==> line in lines;
  }

  lemma HeaderMore(line: Bytes, lines: seq<Bytes>, text: Bytes, rest: Bytes)
    requires line != [] && Find(line, CRLF).None? && ParseHeader(text + rest) == Success(Header(lines, rest))
    ensures ParseHeader((line + CRLF + text) + rest) == Success(Header([line] + lines, rest))
  {
    HeaderLine(line, text + rest);
    Associates(line + CRLF, text, rest);
  }

  lemma {:induction false} ParseHeaderOfPrint(lines: seq<Bytes>, rest: Bytes)
    requires Lines(lines)
    ensures ParseHeader(PrintHeader(lines) + rest) == Success(Header(lines, rest))
    decreases |lines|
  {
    if lines == [] {
      EmptyLine(rest);
    } else {
      TailLines(lines);
      ParseHeaderOfPrint(lines[1..], rest);
      HeaderMore(lines[0], lines[1..], PrintHeader(lines[1..]), rest);
      assert lines == [lines[0]] + lines[1..];
    }
  }

  /** The delimiter has a carriage return only in front when the boundary has none. */
  lemma DelimiterUnbordered(boundary: Bytes)
    requires CR !in boundary
    ensures Unbordered(Delimiter(boundary))
  {
    var d := Delimiter(boundary);
    forall k | 1 <= k < |d| ensures d[k] != d[0] {
      if k >= 4 {
        assert d[k] == boundary[k - 4];
      }
    }
  }

  lemma ParsePartOfPrint(p: Part, d: Bytes, rules: HeaderRules, after: Bytes)
    requires Printable(p, d, rules) && Unbordered(d)
    ensures ParsePart(PrintPart(p, d) + after, d, rules) == Success(Read(p, after))
  {
    var rest := p.body + d + after;
    assert PrintPart(p, d) + after == PrintHeader(p.headers) + rest;
    ParseHeaderOfPrint(p.headers, rest);
    DelimiterEndsText(p.body, d, after);
    assert rest[..|p.body|] == p.body && rest[|p.body| + |d|..] == after;
  }

  lemma LastPart(p: Part, d: Bytes, rules: HeaderRules, epilogue: Bytes)
    requires Printable(p, d, rules) && Unbordered(d)
    ensures ParseParts(PrintPart(p, d) + (DASHES + epilogue), d, rules) == Success([p])
  {
    ParsePartOfPrint(p, d, rules, DASHES + epilogue);
    assert (DASHES + epilogue)[..2] == DASHES;
  }

  lemma OneMorePart(p: Part, d: Bytes, rules: HeaderRules, more: Bytes)
    requires Printable(p, d, rules) && Unbordered(d) && ParseParts(more, d, rules).Success?
    ensures ParseParts(PrintPart(p, d) + (CRLF + more), d, rules) == Success([p] + ParseParts(more, d, rules).value)
  {
    ParsePartOfPrint(p, d, rules, CRLF + more);
    assert (CRLF + more)[..2] == CRLF && (CRLF + more)[2..] == more;
  }

  lemma LastText(p: Part, d: Bytes, rules: HeaderRules, epilogue: Bytes)
    requires Printable(p, d, rules) && Unbordered(d)
    ensures ParseParts((PrintPart(p, d) + DASHES) + epilogue, d, rules) == Success([p])
  {
    LastPart(p, d, rules, epilogue);
    Associates(PrintPart(p, d), DASHES, epilogue);
  }

  lemma MoreText(p: Part, parts: seq<Part>, text: Bytes, d: Bytes, rules: HeaderRules, epilogue: Bytes)
    requires Printable(p, d, rules) && Unbordered(d) && ParseParts(text + epilogue, d, rules) == Success(parts)
    ensures ParseParts((PrintPart(p, d) + CRLF + text) + epilogue, d, rules) == Success([p] + parts)
  {
    OneMorePart(p, d, rules, text + epilogue);
    Associates(PrintPart(p, d), CRLF, text + epilogue);
    Associates(PrintPart(p, d) + CRLF, text, epilogue);
  }

  lemma {:induction false} ParsePartsOfPrint(parts: seq<Part>, d: Bytes, rules: HeaderRules, epilogue: Bytes)
    requires parts != [] && AllPrintable(parts, d, rules) && Unbordered(d)
    ensures ParseParts(PrintParts(parts, d) + epilogue, d, rules) == Success(parts)
    decreases |parts|
  {
    assert parts[0] in parts && forall q :: q in parts[1..] ==> q in parts;
    if |parts| == 1 {
      LastText(parts[0], d, rules, epilogue);
      assert parts == [parts[0]];
    } else {
      ParsePartsOfPrint(parts[1..], d, rules, epilogue);
      MoreText(parts[0], parts[1..], PrintParts(parts[1..], d), d, rules, epilogue);
      assert parts == [parts[0]] + parts[1..];
    }
  }

  /** Parsing a printed list of parts gives back the parts, whatever follows them. */
  lemma ParseOfPrint(parts: seq<Part>, boundary: Bytes, rules: HeaderRules, epilogue: Bytes)
    requires parts != [] && CR !in boundary
    requires AllPrintable(parts, Delimiter(boundary), rules) && HasFile(parts, rules)
    ensures Parse(Print(parts, boundary) + epilogue, boundary, rules) == Success(parts)
  {
    var opening, rest := DASHES + boundary, PrintParts(parts, Delimiter(boundary)) + epilogue;
    var s := Print(parts, boundary) + epilogue;
    assert s == opening + CRLF + rest;
    assert forall k :: 0 <= k < |opening| ==> opening[k] == if k < 2 then 45 else boundary[k - 2];
    forall j: nat ensures !At(opening, CRLF, j) {
      if At(opening, CRLF, j) {
        AtIndex(opening, CRLF, j, 0);
      }
    }
    NotFound(opening, CRLF);
    NonemptyLine(opening, rest);
    assert s[..|opening|] == opening && s[|opening| + 2..] == rest;
    DelimiterUnbordered(boundary);
    ParsePartsOfPrint(parts, Delimiter(boundary), rules, epilogue);
  }

  // ------------------------------------------------ and back

  lemma SplitAt(s: Bytes, d: Bytes, i: nat)
    requires First(s, d, i)
    ensures s == s[..i] + d + s[i + |d|..]
    ensures |d| > 0 ==> Find(s[..i], d).None?
  {
    assert s == s[..i] + s[i..i + |d|] + s[i + |d|..];
    if |d| > 0 {
      forall j: nat ensures !At(s[..i], d, j) {
        if At(s[..i], d, j) {
          assert s[..i][j..j + |d|] == s[j..j + |d|];
          assert At(s, d, j);
        }
      }
      NotFound(s[..i], d);
    }
  }

  /** The first line of a header that parses. */
  lemma FirstLine(s: Bytes) returns (line: Bytes, more: Bytes)
    requires ParseHeader(s).Success?
    ensures s == line + CRLF + more && |more| < |s|
    ensures line == [] ==> ParseHeader(s).value == Header([], more)
    ensures line != [] ==>
      && Find(line, CRLF).None? && ParseHeader(more).Success?
      && ParseHeader(s).value == Header([line] + ParseHeader(more).value.lines, ParseHeader(more).value.rest)
  {
    var i := Find(s, CRLF).value;
    SplitAt(s, CRLF, i);
    line, more := s[..i], s[i + 2..];
  }

  lemma {:induction false} PrintOfParseHeader(s: Bytes)
    requires ParseHeader(s).Success?
    ensures var h := ParseHeader(s).value; Lines(h.lines) && s == PrintHeader(h.lines) + h.rest
    decreases |s|
  {
    var line, more := FirstLine(s);
    if line != [] {
      PrintOfParseHeader(more);
      var h := ParseHeader(more).value;
      PrintOneLine(line, h.lines, h.rest);
    }
  }

  lemma PrintOneLine(line: Bytes, lines: seq<Bytes>, rest: Bytes)
    ensures PrintHeader([line] + lines) + rest == line + CRLF + (PrintHeader(lines) + rest)
  {
    assert ([line] + lines)[1..] == lines;
    Associates(line + CRLF, PrintHeader(lines), rest);
  }

  /** The pieces of a part that parses. */
  lemma PartPieces(s: Bytes, d: Bytes, rules: HeaderRules) returns (rest: Bytes)
    requires d != [] && ParsePart(s, d, rules).Success?
    ensures var read := ParsePart(s, d, rules).value;
      && ParseHeader(s) == Success(Header(read.part.headers, rest))
      && rest == read.part.body + d + read.after
      && Find(read.part.body, d).None?
  {
    rest := ParseHeader(s).value.rest;
    SplitAt(rest, d, Find(rest, d).value);
  }

  lemma PrintOfParsePart(s: Bytes, d: Bytes, rules: HeaderRules)
    requires d != [] && ParsePart(s, d, rules).Success?
    ensures var read := ParsePart(s, d, rules).value;
      Printable(read.part, d, rules) && s == PrintPart(read.part, d) + read.after
  {
    var rest := PartPieces(s, d, rules);
    var read := ParsePart(s, d, rules).value;
    PrintOfParseHeader(s);
    PartText(PrintHeader(read.part.headers), read.part.body, d, read.after);
  }

  lemma PartText(header: Bytes, body: Bytes, d: Bytes, after: Bytes)
    ensures header + (body + d + after) == (header + body + d) + after
  {
    Associates(header, body, d);
    Associates(header, body + d, after);
  }

  lemma {:induction false} PrintOfParseParts(s: Bytes, d: Bytes, rules: HeaderRules) returns (epilogue: Bytes)
    requires d != [] && ParseParts(s, d, rules).Success?
    ensures var parts := ParseParts(s, d, rules).value;
      parts != [] && AllPrintable(parts, d, rules) && s == PrintParts(parts, d) + epilogue
    decreases |s|
  {
    var read := ParsePart(s, d, rules).value;
    PrintOfParsePart(s, d, rules);
    assert read.after == read.after[..2] + read.after[2..];
    if read.after[..2] == DASHES {
      epilogue := read.after[2..];
      Associates(PrintPart(read.part, d), DASHES, epilogue);
    } else {
      epilogue := PrintOfParseParts(read.after[2..], d, rules);
      var more := ParseParts(read.after[2..], d, rules).value;
      PrintOneMore(read.part, more, d, epilogue);
    }
  }

  lemma PrintOneMore(p: Part, more: seq<Part>, d: Bytes, epilogue: Bytes)
    requires more != []
    ensures PrintParts([p] + more, d) + epilogue == PrintPart(p, d) + (CRLF + (PrintParts(more, d) + epilogue))
  {
    assert ([p] + more)[1..] == more;
    Associates(PrintPart(p, d), CRLF, PrintParts(more, d) + epilogue);
    Associates(PrintPart(p, d) + CRLF, PrintParts(more, d), epilogue);
  }

  /** Every accepted request is the printed form of its parts and an epilogue. */
  lemma PrintOfParse(s: Bytes, boundary: Bytes, rules: HeaderRules) returns (epilogue: Bytes)
    requires Parse(s, boundary, rules).Success?
    ensures var parts := Parse(s, boundary, rules).value;
      && parts != [] && AllPrintable(parts, Delimiter(boundary), rules) && HasFile(parts, rules)
      && s == Print(parts, boundary) + epilogue
  {
    var i := Find(s, CRLF).value;
    SplitAt(s, CRLF, i);
    epilogue := PrintOfParseParts(s[i + 2..], Delimiter(boundary), rules);
  }
}
