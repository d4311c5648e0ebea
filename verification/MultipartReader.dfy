/** The streaming reader of multipart uploads: whatever chunks the connection delivers,
    it reads what parsing the whole input would. */
module MultipartReaders {
  import opened Wrappers
  import opened Multipart

  const CHUNK: nat := 8 * 1024 * 1024

  /** A connection: a read returns some of the bytes still to come, and nothing only at
      the end or when asked for nothing. */
  class Stream {
    var coming: Bytes

    constructor (coming: Bytes)
      ensures this.coming == coming
    {
      this.coming := coming;
    }

    method Read(limit: nat) returns (chunk: Bytes)
      modifies this
      ensures chunk + coming == old(coming) && |chunk| <= limit
      ensures chunk == [] ==> limit == 0 || old(coming) == []
    {
      var most := if limit < |coming| then limit else |coming|;
      var n: nat :| n <= most && (n == 0 ==> most == 0);
      chunk := coming[..n];
      coming := coming[n..];
    }
  }

  /** Where the content of a part goes: a spool file or a buffer. */
  class Sink {
    var written: Bytes

    constructor ()
      ensures written == []
    {
      written := [];
    }

    method Write(data: Bytes)
      modifies this
      ensures written == old(written) + data
    {
      written := written + data;
    }
  }

  class MultipartReader {
    const stream: Stream
    var buffer: Bytes
    var remaining: int

    constructor (stream: Stream, remaining: int)
      ensures this.stream == stream && Input() == Within(stream.coming, remaining)
    {
      this.stream := stream;
      buffer := [];
      this.remaining := remaining;
    }

    /** Everything the reader can still deliver: the declared length cuts the connection. */
    ghost function Input(): Bytes
      reads this, stream
    {
      buffer + Within(stream.coming, remaining)
    }

    /** Returns whether the buffer grew; if not, it holds all that is left. */
    method Fill() returns (more: bool)
      modifies this, stream
      ensures Input() == old(Input())
      ensures more ==> remaining < old(remaining) && old(remaining) > 0
      ensures !more ==> Input() == buffer == old(buffer)
    {
      if remaining <= 0 {
        return false;
      }
      var chunk := stream.Read(if CHUNK < remaining then CHUNK else remaining);
      if chunk == [] {
        return false;
      }
      WithinAfter(old(stream.coming), chunk, stream.coming, remaining);
      Associates(buffer, chunk, Within(stream.coming, remaining - |chunk|));
      remaining := remaining - |chunk|;
      buffer := buffer + chunk;
      return true;
    }

    method Read(size: nat) returns (r: Result<Bytes, Error>)
      modifies this, stream
      ensures r.Success? <==> size <= |old(Input())|
      ensures r.Success? ==> r.value == old(Input())[..size] && Input() == old(Input())[size..]
      ensures r.Failure? ==> r == Failure(Ended)
    {
      ghost var all := Input();
      while |buffer| < size
        invariant Input() == all
        decreases remaining
      {
        var more := Fill();
        if !more {
          return Failure(Ended);
        }
      }
      assert all[..size] == buffer[..size];
      assert all[size..] == buffer[size..] + Within(stream.coming, remaining);
      r := Success(buffer[..size]);
      buffer := buffer[size..];
    }

    method ReadLine() returns (r: Result<Bytes, Error>)
      modifies this, stream
      ensures match Find(old(Input()), CRLF)
        case None => r == Failure(Ended)
        case Some(i) => r == Success(old(Input())[..i]) && Input() == old(Input())[i + 2..]
    {
      ghost var all := Input();
      var found := Search(buffer, CRLF);
      while found.None?
        invariant Input() == all && found == Find(buffer, CRLF)
        decreases remaining
      {
        var more := Fill();
        if !more {
          return Failure(Ended);
        }
        found := Search(buffer, CRLF);
      }
      var index := found.value;
      FoundEarly(buffer, Within(stream.coming, remaining), CRLF);
      assert all[..index] == buffer[..index];
      assert all[index + 2..] == buffer[index + 2..] + Within(stream.coming, remaining);
      r := Success(buffer[..index]);
      buffer := buffer[index + 2..];
    }

    /** Copies everything before the delimiter to the sink and drops the delimiter,
        holding back only as many bytes as could begin it. */
    method ReadPart(delimiter: Bytes, sink: Sink) returns (found: bool)
      modifies this, stream, sink
      ensures match Find(old(Input()), delimiter)
        case None => !found
        case Some(i) =>
          && found
          && sink.written == old(sink.written) + old(Input())[..i]
          && Input() == old(Input())[i + |delimiter|..]
    {
      ghost var all, before := Input(), sink.written;
      ghost var gone := 0;
      CopyingStarts(all, before, delimiter);
      while true
        invariant Copying(all, gone, Input(), before, sink.written, delimiter)
        decreases remaining
      {
        var index := Search(buffer, delimiter);
        ghost var rest := Within(stream.coming, remaining);
        if index.Some? {
          CopyingEnds(all, gone, buffer, rest, before, sink.written, delimiter);
          sink.Write(buffer[..index.value]);
          buffer := buffer[index.value + |delimiter|..];
          return true;
        }
        ghost var held, copied := buffer, sink.written;
        ghost var drop := Spill(delimiter, sink);
        CopyingGoesOn(all, gone, held, rest, before, copied, delimiter, drop);
        gone := gone + drop;
        var more := Fill();
        if !more {
          return false;
        }
      }
    }

    /** Writes what can no longer be part of the delimiter. */
    method Spill(delimiter: Bytes, sink: Sink) returns (ghost drop: nat)
      requires Find(buffer, delimiter).None?
      modifies this`buffer, sink
      ensures drop <= |old(buffer)| && (drop + |delimiter| <= |old(buffer)| + 1 || drop == 0)
      ensures buffer == old(buffer)[drop..]
      ensures sink.written == old(sink.written) + old(buffer)[..drop]
    {
      var keep := |delimiter| - 1;
      drop := 0;
      if |buffer| > keep {
        EmptyOccurs(buffer, delimiter);
        var end := if keep == 0 then 0 else |buffer| - keep;
        drop := end;
        sink.Write(buffer[..end]);
        buffer := buffer[end..];
      } else {
        assert old(buffer)[..0] == [] && old(buffer)[0..] == old(buffer);
      }
    }
  }

  ghost function Later(gone: nat, found: Option<nat>): Option<nat> {
    match found case Some(i) => Some(gone + i) case None => None
  }

  /** The first `gone` bytes of the input have been copied, and the delimiter is not yet reached. */
  ghost predicate Copying(all: Bytes, gone: nat, input: Bytes, before: Bytes, written: Bytes, d: Bytes) {
    && gone <= |all|
    && input == all[gone..]
    && written == before + all[..gone]
    && Find(all, d) == Later(gone, Find(input, d))
  }

  lemma CopyingStarts(all: Bytes, before: Bytes, d: Bytes)
    ensures Copying(all, 0, all, before, before, d)
  {
    assert all[0..] == all && before + all[..0] == before;
  }

  lemma CopyingGoesOn(all: Bytes, gone: nat, buffer: Bytes, rest: Bytes, before: Bytes, written: Bytes, d: Bytes, drop: nat)
    requires Copying(all, gone, buffer + rest, before, written, d)
    requires Find(buffer, d).None? && drop <= |buffer| && (drop + |d| <= |buffer| + 1 || drop == 0)
    ensures Copying(all, gone + drop, buffer[drop..] + rest, before, written + buffer[..drop], d)
    ensures Find(buffer[drop..], d).None?
  {
    NotFound(buffer, d);
    NotFound(buffer[drop..], d);
    forall j: nat ensures !At(buffer[drop..], d, j) {
      AtShifts(buffer, d, drop, j);
    }
    if drop == 0 {
      assert buffer[0..] == buffer && buffer[..0] == [];
    } else {
      ForgetsNothing(buffer, rest, d, drop);
    }
    Prefixes(all, gone, buffer, rest, drop, 0);
    Associates(before, all[..gone], buffer[..drop]);
  }

  lemma CopyingEnds(all: Bytes, gone: nat, buffer: Bytes, rest: Bytes, before: Bytes, written: Bytes, d: Bytes)
    requires Copying(all, gone, buffer + rest, before, written, d) && Find(buffer, d).Some?
    ensures var i := Find(buffer, d).value;
      && i + |d| <= |buffer| && Find(all, d) == Some(gone + i) && gone + i + |d| <= |all|
      && written + buffer[..i] == before + all[..gone + i]
      && buffer[i + |d|..] + rest == all[gone + i + |d|..]
  {
    var i := Find(buffer, d).value;
    FoundEarly(buffer, rest, d);
    Prefixes(all, gone, buffer, rest, i, |d|);
    Associates(before, all[..gone], buffer[..i]);
  }

  /** The first n bytes of s, or all of them. */
  function Within(s: Bytes, n: int): Bytes {
    if n <= 0 then [] else if n < |s| then s[..n] else s
  }

  lemma WithinAfter(before: Bytes, chunk: Bytes, after: Bytes, n: int)
    requires before == chunk + after && |chunk| <= n
    ensures Within(before, n) == chunk + Within(after, n - |chunk|)
  {
  }

  /** An empty delimiter is found at once. */
  lemma EmptyOccurs(s: Bytes, d: Bytes)
    requires Find(s, d).None?
    ensures d != []
  {
    NotFound(s, d);
    assert !At(s, d, 0);
  }

  lemma Prefixes(all: Bytes, gone: nat, buffer: Bytes, rest: Bytes, drop: nat, skip: nat)
    requires gone <= |all| && all[gone..] == buffer + rest && drop + skip <= |buffer|
    ensures gone + drop + skip <= |all|
    ensures all[..gone] + buffer[..drop] == all[..gone + drop]
    ensures buffer[drop + skip..] + rest == all[gone + drop + skip..]
  {
    assert all == all[..gone] + (buffer + rest);
    assert all[..gone + drop] == all[..gone] + all[gone..][..drop];
    assert all[gone + drop + skip..] == all[gone..][drop + skip..];
  }

  // ------------------------------------------------ the request

  /** A parse result with some header lines read before it. */
  ghost function After(lines: seq<Bytes>, r: Result<Header, Error>): Result<Header, Error> {
    match r
    case Failure(e) => Failure(e)
    case Success(h) => Success(Header(lines + h.lines, h.rest))
  }

  lemma AfterNothing(r: Result<Header, Error>)
    ensures After([], r) == r
  {
    assert r.Success? ==> [] + r.value.lines == r.value.lines;
  }

  lemma AfterOne(lines: seq<Bytes>, line: Bytes, r: Result<Header, Error>)
    ensures After(lines, After([line], r)) == After(lines + [line], r)
  {
    assert r.Success? ==> lines + ([line] + r.value.lines) == (lines + [line]) + r.value.lines;
  }

  /** The same with some parts read before. */
  ghost function AfterParts(parts: seq<Part>, r: Result<seq<Part>, Error>): Result<seq<Part>, Error> {
    match r
    case Failure(e) => Failure(e)
    case Success(more) => Success(parts + more)
  }

  lemma NoParts(r: Result<seq<Part>, Error>)
    ensures AfterParts([], r) == r
  {
    assert r.Success? ==> [] + r.value == r.value;
  }

  lemma OnePart(parts: seq<Part>, p: Part, r: Result<seq<Part>, Error>)
    ensures AfterParts(parts, AfterParts([p], r)) == AfterParts(parts + [p], r)
  {
    assert r.Success? ==> parts + ([p] + r.value) == (parts + [p]) + r.value;
  }

  method ReadHeader(reader: MultipartReader) returns (r: Result<seq<Bytes>, Error>)
    modifies reader, reader.stream
    ensures match ParseHeader(old(reader.Input()))
      case Failure(e) => r == Failure(e)
      case Success(h) => r == Success(h.lines) && reader.Input() == h.rest
  {
    var lines: seq<Bytes> := [];
    ghost var all := reader.Input();
    AfterNothing(ParseHeader(all));
    while true
      invariant ParseHeader(all) == After(lines, ParseHeader(reader.Input()))
      decreases |reader.Input()|
    {
      var line := reader.ReadLine();
      if line.Failure? {
        return Failure(Ended);
      }
      if line.value == [] {
        assert lines + [] == lines;
        return Success(lines);
      }
      AfterOne(lines, line.value, ParseHeader(reader.Input()));
      lines := lines + [line.value];
    }
  }

  /** Reads one whole request; every chunking gives what parsing the whole input gives. */
  method ReadMultipart(reader: MultipartReader, boundary: Bytes, rules: HeaderRules) returns (r: Result<seq<Part>, Error>)
    modifies reader, reader.stream
    ensures r == Parse(old(reader.Input()), boundary, rules)
  {
    var opening := reader.ReadLine();
    if opening.Failure? {
      return Failure(Ended);
    }
    if opening.value != DASHES + boundary {
      return Failure(BadOpening);
    }
    var delimiter := Delimiter(boundary);
    ghost var all := reader.Input();
    var parts: seq<Part> := [];
    var last := false;
    NoParts(ParseParts(all, delimiter, rules));
    while !last
      invariant ParseParts(all, delimiter, rules) ==
        if last then Success(parts) else AfterParts(parts, ParseParts(reader.Input(), delimiter, rules))
      decreases !last, |reader.Input()|
    {
      var read := ReadOnePart(reader, delimiter, rules);
      if read.Failure? {
        return Failure(read.error);
      }
      var suffix := reader.Read(2);
      if suffix.Failure? {
        return Failure(Ended);
      }
      if suffix.value == DASHES {
        last := true;
      } else if suffix.value != CRLF {
        return Failure(BadSuffix);
      }
      OnePart(parts, read.value, ParseParts(reader.Input(), delimiter, rules));
      parts := parts + [read.value];
    }
    if !HasFile(parts, rules) {
      return Failure(NoFile);
    }
    return Success(parts);
  }

  method ReadOnePart(reader: MultipartReader, delimiter: Bytes, rules: HeaderRules) returns (r: Result<Part, Error>)
    modifies reader, reader.stream
    ensures match ParsePart(old(reader.Input()), delimiter, rules)
      case Failure(e) => r == Failure(e)
      case Success(read) => r == Success(read.part) && reader.Input() == read.after
  {
    var lines := ReadHeader(reader);
    if lines.Failure? {
      return Failure(lines.error);
    }
    if !rules.named(lines.value) {
      return Failure(MissingFieldName);
    }
    var sink := new Sink();
    ghost var rest := reader.Input();
    var found := reader.ReadPart(delimiter, sink);
    if !found {
      return Failure(Ended);
    }
    assert sink.written == rest[..Find(rest, delimiter).value];
    if !rules.isFile(lines.value) && |sink.written| > MAX_METADATA {
      return Failure(MetadataTooLarge);
    }
    if !rules.isFile(lines.value) && rules.metadata(lines.value, sink.written).Malformed? {
      return Failure(BadMetadata);
    }
    return Success(Part(lines.value, sink.written));
  }
}
