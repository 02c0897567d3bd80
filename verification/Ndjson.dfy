// The chunked NDJSON parser of the batch ingest endpoint, refined against
// splitting the whole body by line.
module Ndjson {
  import opened Bytes
  import opened Basics

  const MAX_BATCH_BYTES: nat := 8 * 1024 * 1024
  const MAX_MESSAGES: nat := 1000

  datatype ParseError =
    | TooManyBytes
    | TooManyMessages
    | BadRecord(line: nat)
    | ReadFailed
    | EmptyBatch

  /** One item of the body stream: bytes, or a transport error. */
  datatype Chunk = Data(bytes: Text) | Broken

  /** Decoder of one record line; the JSON grammar itself is a parameter. */
  type Decoder<T> = Text -> Option<T>

  /** Parses numbered lines onto `done`, `n` lines having been read before. */
  function ParseLines<T>(decode: Decoder<T>, lines: seq<Text>, n: nat, done: seq<T>): Result<seq<T>, ParseError>
    decreases |lines|
  {
    if |lines| == 0 then Ok(done) else
      var line := StripReturn(lines[0]);
      if Blank(line) then ParseLines(decode, lines[1..], n + 1, done)
      else if |done| >= MAX_MESSAGES then Err(TooManyMessages)
      else match decode(line)
        case None => Err(BadRecord(n + 1))
        case Some(m) => ParseLines(decode, lines[1..], n + 1, done + [m])
  }

  /** The reference: split the whole body, parse every line. */
  function ParseWhole<T>(decode: Decoder<T>, body: Text): Result<seq<T>, ParseError> {
    if |body| > MAX_BATCH_BYTES then Err(TooManyBytes)
    else ParseLines(decode, SplitLines(body), 0, [])
  }

  /** The stream endpoint also refuses a batch without a message. */
  function NonEmpty<T>(r: Result<seq<T>, ParseError>): Result<seq<T>, ParseError> {
    if r.Ok? && |r.value| == 0 then Err(EmptyBatch) else r
  }

  /** The non-blank lines, in order: what the batch is made of. */
  function Records(lines: seq<Text>): seq<Text> {
    if |lines| == 0 then []
    else (if Blank(lines[0]) then [] else [StripReturn(lines[0])]) + Records(lines[1..])
  }

  predicate AllDecode<T>(decode: Decoder<T>, records: seq<Text>) {
    forall i :: 0 <= i < |records| ==> decode(records[i]).Some?
  }

  function Decoded<T>(decode: Decoder<T>, records: seq<Text>): seq<T>
    requires AllDecode(decode, records)
  {
    seq(|records|, i requires 0 <= i < |records| => decode(records[i]).value)
  }

  /** A batch is accepted exactly when its records all decode and fit the limit,
      and the messages are then those records, none lost, added or reordered. */
  lemma {:induction false} AcceptedExactly<T>(decode: Decoder<T>, lines: seq<Text>, n: nat, done: seq<T>)
    requires |done| <= MAX_MESSAGES
    ensures ParseLines(decode, lines, n, done).Ok? <==>
            AllDecode(decode, Records(lines)) && |done| + |Records(lines)| <= MAX_MESSAGES
    ensures ParseLines(decode, lines, n, done).Ok? ==>
            ParseLines(decode, lines, n, done).value == done + Decoded(decode, Records(lines))
    decreases |lines|
  {
    if |lines| > 0 {
      StripKeepsBlank(lines[0]);
      var line, tail := StripReturn(lines[0]), Records(lines[1..]);
      if Blank(line) {
        assert Records(lines) == tail;
        AcceptedExactly(decode, lines[1..], n + 1, done);
      } else {
        assert Records(lines) == [line] + tail;
        assert Records(lines)[0] == line && Records(lines)[1..] == tail;
        if |done| < MAX_MESSAGES && decode(line).Some? {
          AcceptedExactly(decode, lines[1..], n + 1, done + [decode(line).value]);
          assert AllDecode(decode, Records(lines)) <==> AllDecode(decode, tail) by {
            assert forall i :: 0 <= i < |tail| ==> tail[i] == Records(lines)[i + 1];
          }
        }
      }
    }
  }

  /** The reported line number is that of the first record that does not decode. */
  lemma {:induction false} FirstBadLine<T>(decode: Decoder<T>, lines: seq<Text>, n: nat, done: seq<T>)
    requires ParseLines(decode, lines, n, done).Err? && ParseLines(decode, lines, n, done).error.BadRecord?
    ensures var bad := ParseLines(decode, lines, n, done).error.line - n - 1;
            && 0 <= bad < |lines| && !Blank(StripReturn(lines[bad])) && decode(StripReturn(lines[bad])) == None
            && forall i :: 0 <= i < bad && !Blank(StripReturn(lines[i])) ==> decode(StripReturn(lines[i])).Some?
    decreases |lines|
  {
    var line := StripReturn(lines[0]);
    if Blank(line) {
      FirstBadLine(decode, lines[1..], n + 1, done);
    } else if decode(line).Some? {
      FirstBadLine(decode, lines[1..], n + 1, done + [decode(line).value]);
    }
  }

  function Payload(chunks: seq<Chunk>): Text {
    if |chunks| == 0 || chunks[0].Broken? then [] else chunks[0].bytes + Payload(chunks[1..])
  }

  predicate AllData(chunks: seq<Chunk>) {
    forall i :: 0 <= i < |chunks| ==> chunks[i].Data?
  }

  lemma PayloadGrows(chunks: seq<Chunk>, i: nat)
    requires i < |chunks| && chunks[i].Data?
    ensures Payload(chunks[i..]) == chunks[i].bytes + Payload(chunks[i + 1..])
  {
    assert chunks[i..][1..] == chunks[i + 1..];
  }

  /** One line read: blank, refused, or one more message. */
  function ParseLine<T>(decode: Decoder<T>, raw: Text, n: nat, done: seq<T>): Result<seq<T>, ParseError> {
    var line := StripReturn(raw);
    if Blank(line) then Ok(done)
    else if |done| >= MAX_MESSAGES then Err(TooManyMessages)
    else match decode(line)
      case None => Err(BadRecord(n))
      case Some(m) => Ok(done + [m])
  }

  lemma ParseFirst<T>(decode: Decoder<T>, raw: Text, rest: Text, n: nat, done: seq<T>)
    requires OneLine(raw)
    ensures ParseLines(decode, SplitLines(raw + [NEWLINE] + rest), n, done) ==
            match ParseLine(decode, raw, n + 1, done)
            case Err(e) => Err(e)
            case Ok(more) => ParseLines(decode, SplitLines(rest), n + 1, more)
  {
    SplitFirst(raw, rest);
    assert ([raw] + SplitLines(rest))[1..] == SplitLines(rest);
  }

  lemma ParseLast<T>(decode: Decoder<T>, raw: Text, n: nat, done: seq<T>)
    requires OneLine(raw)
    ensures ParseLines(decode, SplitLines(raw), n, done) == ParseLine(decode, raw, n + 1, done)
  {
    SplitLast(raw);
  }

  datatype Cut<T> = Cut(pending: Text, lineNumber: nat, messages: seq<T>)

  /** What is still to come, given what has been consumed. */
  ghost function Outcome<T>(decode: Decoder<T>, cut: Cut<T>, rest: Text): Result<seq<T>, ParseError> {
    ParseLines(decode, SplitLines(cut.pending + rest), cut.lineNumber, cut.messages)
  }

  /** Parses every complete line of the pending bytes and keeps the remainder. */
  method DrainPending<T>(decode: Decoder<T>, cut: Cut<T>, ghost rest: Text) returns (r: Result<Cut<T>, ParseError>)
    requires |cut.messages| <= MAX_MESSAGES
    ensures r.Err? ==> Outcome(decode, cut, rest) == Err(r.error)
    ensures r.Ok? ==> Outcome(decode, cut, rest) == Outcome(decode, r.value, rest)
    ensures r.Ok? ==> OneLine(r.value.pending) && |r.value.messages| <= MAX_MESSAGES
  {
    hide ParseLines, SplitLines;
    var Cut(pending, lineNumber, messages) := cut;
    var consumed := 0;
    assert pending[0..] == pending;
    var end := NextNewline(pending, consumed);
    while end < |pending|
      invariant 0 <= consumed <= end <= |pending|
      invariant end == NextNewline(pending, consumed)
      invariant |messages| <= MAX_MESSAGES
      invariant Outcome(decode, Cut(pending[consumed..], lineNumber, messages), rest) == Outcome(decode, cut, rest)
      decreases |pending| - consumed
    {
      var raw := pending[consumed..end];
      assert pending[consumed..] + rest == raw + [NEWLINE] + (pending[end + 1..] + rest);
      ParseFirst(decode, raw, pending[end + 1..] + rest, lineNumber, messages);
      lineNumber := lineNumber + 1;
      match ParseLine(decode, raw, lineNumber, messages)
      case Err(e) => return Err(e);
      case Ok(more) => messages := more;
      consumed := end + 1;
      end := NextNewline(pending, consumed);
    }
    return Ok(Cut(pending[consumed..], lineNumber, messages));
  }

  /** A body that fits and arrives unbroken is parsed exactly as its lines are,
      whatever the cuts between chunks; nothing oversized or broken is accepted. */
  method ParseStream<T>(decode: Decoder<T>, chunks: seq<Chunk>) returns (r: Result<seq<T>, ParseError>)
    ensures AllData(chunks) && |Payload(chunks)| <= MAX_BATCH_BYTES ==> r == NonEmpty(ParseWhole(decode, Payload(chunks)))
    ensures r.Ok? ==> AllData(chunks) && 0 < |r.value| <= MAX_MESSAGES && |Payload(chunks)| <= MAX_BATCH_BYTES
  {
    hide ParseLines, SplitLines;
    var cut: Cut<T> := Cut([], 0, []);
    var total: nat := 0;
    var i := 0;
    assert [] + Payload(chunks[0..]) == Payload(chunks);
    while i < |chunks|
      invariant 0 <= i <= |chunks|
      invariant forall j :: 0 <= j < i ==> chunks[j].Data?
      invariant total + |Payload(chunks[i..])| == |Payload(chunks)| && total <= MAX_BATCH_BYTES
      invariant |cut.messages| <= MAX_MESSAGES && OneLine(cut.pending)
      invariant Outcome(decode, cut, Payload(chunks[i..])) == ParseLines(decode, SplitLines(Payload(chunks)), 0, [])
    {
      if chunks[i].Broken? {
        return Err(ReadFailed);
      }
      var chunk := chunks[i].bytes;
      PayloadGrows(chunks, i);
      total := total + |chunk|;
      if total > MAX_BATCH_BYTES {
        return Err(TooManyBytes);
      }
      ghost var rest := Payload(chunks[i + 1..]);
      assert cut.pending + (chunk + rest) == (cut.pending + chunk) + rest;
      var drained := DrainPending(decode, cut.(pending := cut.pending + chunk), rest);
      match drained
      case Err(e) => return Err(e);
      case Ok(next) => cut := next;
      i := i + 1;
    }
    assert cut.pending + [] == cut.pending;
    ParseLast(decode, cut.pending, cut.lineNumber, cut.messages);
    StripKeepsBlank(cut.pending);
    var messages := cut.messages;
    if !Blank(cut.pending) {
      match ParseLine(decode, cut.pending, cut.lineNumber + 1, messages)
      case Err(e) => return Err(e);
      case Ok(more) => messages := more;
    }
    return if |messages| == 0 then Err(EmptyBatch) else Ok(messages);
  }
}
