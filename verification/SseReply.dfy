/**
 Incremental search for one JSON-RPC response in a server-sent event stream.

 `Reply` is the specification: it looks at the whole stream at once. Line ends are
 normalised to LF, the stream is cut at LF, and the lines are read in order as
 sections 9.2.5 and 9.2.6 of the WHATWG HTML Living Standard describe, except that a
 `data` line without a colon is ignored. `SseReply` is the incremental reader: it sees
 the stream in chunks and keeps a byte buffer with a resumable scan offset.
 */
module SseReplies {
  import opened Common
  import Texts

  type Byte = b: nat | b < 256

  const LF: Byte := 10
  const CR: Byte := 13
  const RESPONSE_BYTES: nat := 8 * 1024 * 1024
  const MAX_EVENTS: nat := 4096
  const BOM := "\U{FEFF}"

  datatype RequestId = TextId(text: string) | NumberId(number: int)

  datatype Error = SizeLimit | EventLimit | InvalidUtf8 | InvalidJson

  datatype Outcome = Pending | Found(raw: seq<Byte>) | Failed(error: Error)

  /** UTF-8 and JSON as functions of one complete line or payload; `None` is an exception. */
  datatype Codec = Codec(
    decode: seq<Byte> -> Option<string>,
    encode: string -> seq<Byte>,
    parse: seq<Byte> -> Option<Json>)

  /** What the lines read so far leave behind. */
  datatype Reader = Reader(data: seq<string>, events: nat, firstLine: bool)

  const START := Reader([], 0, true)

  /** A JSON-RPC response to exactly this request: not a request itself, same id type and value. */
  predicate ResponseMatches(value: Json, id: RequestId) {
    && value.Object?
    && "jsonrpc" in value.members && value.members["jsonrpc"] == Str("2.0")
    && "method" !in value.members
    && "id" in value.members
    && value.members["id"] == (match id case TextId(t) => Str(t) case NumberId(n) => Int(n))
    && ("result" in value.members) != ("error" in value.members)
  }

  // ---------------------------------------------------------------------------
  // Whole-stream specification
  // ---------------------------------------------------------------------------

  /** CRLF and lone CR become LF. */
  function Normalize(s: seq<Byte>): seq<Byte> {
    if s == [] then []
    else if s[0] != CR then [s[0]] + Normalize(s[1..])
    else if |s| > 1 && s[1] == LF then [LF] + Normalize(s[2..])
    else [LF] + Normalize(s[1..])
  }

  /** The lines that an LF closes; what follows the last LF is not a line yet. */
  function ClosedLines(s: seq<Byte>, open: seq<Byte>): seq<seq<Byte>> {
    if s == [] then []
    else if s[0] == LF then [open] + ClosedLines(s[1..], [])
    else ClosedLines(s[1..], open + [s[0]])
  }

  function StripBom(text: string): string {
    if BOM <= text then text[1..] else text
  }

  /** The value of a `data:` field, without one optional leading space. */
  function DataField(text: string): string
    requires "data:" <= text
  {
    if "data: " <= text then text[6..] else text[5..]
  }

  datatype LineStep = Continue(reader: Reader) | Stop(outcome: Outcome)

  function ReadLine(codec: Codec, id: RequestId, r: Reader, line: seq<Byte>): LineStep {
    match codec.decode(line)
    case None => Stop(Failed(InvalidUtf8))
    case Some(decoded) =>
      var text := if r.firstLine then StripBom(decoded) else decoded;
      if text == "" then Dispatch(codec, id, r)
      else if "data:" <= text then Continue(Reader(r.data + [DataField(text)], r.events, false))
      else Continue(Reader(r.data, r.events, false))
  }

  /** A blank line ends an event; an event with data is parsed and compared with the request. */
  function Dispatch(codec: Codec, id: RequestId, r: Reader): LineStep {
    if r.events + 1 > MAX_EVENTS then Stop(Failed(EventLimit))
    else if r.data == [] then Continue(Reader([], r.events + 1, false))
    else
      var raw := codec.encode(Texts.Join(r.data, '\n'));
      match codec.parse(raw)
      case None => Stop(Failed(InvalidJson))
      case Some(value) =>
        if ResponseMatches(value, id) then Stop(Found(raw))
        else Continue(Reader([], r.events + 1, false))
  }

  function ReadLines(codec: Codec, id: RequestId, r: Reader, lines: seq<seq<Byte>>): LineStep
    decreases |lines|
  {
    if lines == [] then Continue(r)
    else match ReadLine(codec, id, r, lines[0])
      case Stop(outcome) => Stop(outcome)
      case Continue(next) => ReadLines(codec, id, next, lines[1..])
  }

  function Verdict(step: LineStep): Outcome {
    match step case Continue(_) => Pending case Stop(outcome) => outcome
  }

  /** The answer a reader of the complete stream gives. */
  function Reply(codec: Codec, id: RequestId, stream: seq<Byte>): Outcome {
    Verdict(ReadLines(codec, id, START, ClosedLines(Normalize(stream), [])))
  }

  // ---------------------------------------------------------------------------
  // The same lines, found by searching for the next terminator
  // ---------------------------------------------------------------------------

  predicate IsEnd(b: Byte) { b == CR || b == LF }

  predicate NoEnd(s: seq<Byte>) { forall i :: 0 <= i < |s| ==> !IsEnd(s[i]) }

  /** Index of the first CR or LF, or the length if there is none. */
  function FirstEnd(s: seq<Byte>): (e: nat)
    ensures e <= |s| && NoEnd(s[..e])
    ensures e < |s| ==> IsEnd(s[e])
  {
    if s == [] || IsEnd(s[0]) then 0
    else
      var e := 1 + FirstEnd(s[1..]);
      assert s[..e] == [s[0]] + s[1..][..e - 1];
      e
  }

  lemma FirstEndIs(s: seq<Byte>, e: nat)
    requires e <= |s| && NoEnd(s[..e])
    requires e < |s| ==> IsEnd(s[e])
    ensures FirstEnd(s) == e
  {
    if 0 < e {
      assert s[0] == s[..e][0];
      assert s[1..][..e - 1] == s[..e][1..];
      FirstEndIs(s[1..], e - 1);
    }
  }

  /** A CR that ended the previous line swallows an LF that comes next. */
  function SkipLf(skip: bool, s: seq<Byte>): seq<Byte> {
    if skip && s != [] && s[0] == LF then s[1..] else s
  }

  function Rest(s: seq<Byte>, e: nat): seq<Byte>
    requires e < |s|
  {
    SkipLf(s[e] == CR, s[e + 1..])
  }

  function Lines(s: seq<Byte>): seq<seq<Byte>>
    decreases |s|
  {
    var e := FirstEnd(s);
    if e == |s| then [] else [s[..e]] + Lines(Rest(s, e))
  }

  /** The bytes after the last terminator. */
  function Open(s: seq<Byte>): seq<Byte>
    decreases |s|
  {
    var e := FirstEnd(s);
    if e == |s| then s else Open(Rest(s, e))
  }

  predicate EndsInCr(s: seq<Byte>) { s != [] && s[|s| - 1] == CR }

  lemma NormalizeEnd(s: seq<Byte>)
    requires s != [] && IsEnd(s[0])
    ensures Normalize(s) == [LF] + Normalize(SkipLf(s[0] == CR, s[1..]))
  {
  }

  lemma ClosedLinesEnd(s: seq<Byte>, open: seq<Byte>)
    ensures ClosedLines([LF] + s, open) == [open] + ClosedLines(s, [])
  {
  }

  lemma LinesAfterOpen(s: seq<Byte>, open: seq<Byte>)
    requires NoEnd(open) && s != [] && IsEnd(s[0])
    ensures Lines(open + s) == [open] + Lines(SkipLf(s[0] == CR, s[1..]))
  {
    var t := open + s;
    assert t[..|open|] == open && t[|open| + 1..] == s[1..];
    FirstEndIs(t, |open|);
  }

  lemma {:induction false} LinesAreClosedLines(s: seq<Byte>, open: seq<Byte>)
    requires NoEnd(open)
    ensures ClosedLines(Normalize(s), open) == Lines(open + s)
    decreases |s|
  {
    if s == [] {
      assert open + s == open;
      FirstEndIs(open, |open|);
    } else if IsEnd(s[0]) {
      var rest := SkipLf(s[0] == CR, s[1..]);
      LinesAreClosedLines(rest, []);
      assert [] + rest == rest;
      NormalizeEnd(s);
      ClosedLinesEnd(Normalize(rest), open);
      LinesAfterOpen(s, open);
    } else {
      LinesAreClosedLines(s[1..], open + [s[0]]);
      assert open + [s[0]] + s[1..] == open + s;
      assert Normalize(s)[1..] == Normalize(s[1..]);
    }
  }

  lemma {:induction false} ReadLinesConcat(codec: Codec, id: RequestId, r: Reader, a: seq<seq<Byte>>, b: seq<seq<Byte>>)
    ensures ReadLines(codec, id, r, a + b) ==
            match ReadLines(codec, id, r, a)
            case Stop(o) => Stop(o)
            case Continue(mid) => ReadLines(codec, id, mid, b)
    decreases |a|
  {
    if a == [] {
      assert a + b == b;
    } else {
      assert (a + b)[1..] == a[1..] + b;
      match ReadLine(codec, id, r, a[0])
      case Stop(_) =>
      case Continue(next) => ReadLinesConcat(codec, id, next, a[1..], b);
    }
  }

  lemma LinesAt(s: seq<Byte>, e: nat)
    requires e < |s| && NoEnd(s[..e]) && IsEnd(s[e])
    ensures Lines(s) == [s[..e]] + Lines(Rest(s, e))
    ensures Open(s) == Open(Rest(s, e))
  {
    FirstEndIs(s, e);
  }

  lemma LinesNone(s: seq<Byte>)
    requires NoEnd(s)
    ensures Lines(s) == [] && Open(s) == s && !EndsInCr(s)
  {
  }

  lemma RestConcat(s: seq<Byte>, t: seq<Byte>, e: nat)
    requires e < |s|
    ensures Rest(s + t, e) == if e + 1 == |s| then SkipLf(s[e] == CR, t) else Rest(s, e) + t
  {
  }

  /** Later bytes only extend the open line, or lose an LF to a final CR. */
  ghost predicate Extends(s: seq<Byte>, t: seq<Byte>) {
    var u := Open(s) + SkipLf(EndsInCr(s), t);
    && Lines(s + t) == Lines(s) + Lines(u)
    && Open(s + t) == Open(u)
    && (EndsInCr(s) ==> Open(s) == [])
    && NoEnd(Open(s))
  }

  lemma ExtendsOpen(s: seq<Byte>, t: seq<Byte>)
    requires NoEnd(s)
    ensures Extends(s, t)
  {
  }

  lemma EndsAtEnd(s: seq<Byte>, t: seq<Byte>, e: nat)
    requires e < |s| && IsEnd(s[e]) && Rest(s, e) == []
    ensures Rest(s + t, e) == SkipLf(EndsInCr(s), t)
  {
  }

  lemma ExtendsAtEnd(s: seq<Byte>, t: seq<Byte>, e: nat)
    requires e < |s| && NoEnd(s[..e]) && IsEnd(s[e]) && Rest(s, e) == []
    ensures Extends(s, t)
  {
    var u := SkipLf(EndsInCr(s), t);
    assert Lines(s) == [s[..e]] && Open(s) == [] by {
      LinesNone([]);
      LinesAt(s, e);
    }
    assert Lines(s + t) == [s[..e]] + Lines(u) && Open(s + t) == Open(u) by {
      assert (s + t)[..e] == s[..e];
      LinesAt(s + t, e);
      EndsAtEnd(s, t, e);
    }
    assert [] + u == u;
  }

  lemma ExtendsLater(s: seq<Byte>, t: seq<Byte>, e: nat)
    requires e < |s| && NoEnd(s[..e]) && IsEnd(s[e]) && Rest(s, e) != []
    requires Extends(Rest(s, e), t)
    ensures Extends(s, t)
  {
    var rest := Rest(s, e);
    var u := Open(rest) + SkipLf(EndsInCr(rest), t);
    assert EndsInCr(s) == EndsInCr(rest) by {
      assert rest[|rest| - 1] == s[|s| - 1];
    }
    assert Lines(s) == [s[..e]] + Lines(rest) && Open(s) == Open(rest) by {
      LinesAt(s, e);
    }
    assert Lines(s + t) == [s[..e]] + Lines(rest + t) && Open(s + t) == Open(rest + t) by {
      assert (s + t)[..e] == s[..e];
      RestConcat(s, t, e);
      LinesAt(s + t, e);
    }
    ConcatAssociative([s[..e]], Lines(rest), Lines(u));
  }

  lemma {:induction false} LinesExtend(s: seq<Byte>, t: seq<Byte>)
    ensures Extends(s, t)
    decreases |s|
  {
    var e := FirstEnd(s);
    if e == |s| {
      assert s[..e] == s;
      ExtendsOpen(s, t);
    } else if Rest(s, e) == [] {
      ExtendsAtEnd(s, t, e);
    } else {
      LinesExtend(Rest(s, e), t);
      ExtendsLater(s, t, e);
    }
  }

  /** A chunk continues the reading exactly where the stream fed so far left it. */
  lemma ResumeAt(codec: Codec, id: RequestId, s: seq<Byte>, t: seq<Byte>)
    requires ReadLines(codec, id, START, Lines(s)).Continue?
    ensures var u := Open(s) + SkipLf(EndsInCr(s), t);
            && ReadLines(codec, id, START, Lines(s + t))
               == ReadLines(codec, id, ReadLines(codec, id, START, Lines(s)).reader, Lines(u))
            && Open(s + t) == Open(u)
  {
    LinesExtend(s, t);
    ReadLinesConcat(codec, id, START, Lines(s), Lines(Open(s) + SkipLf(EndsInCr(s), t)));
  }

  lemma ReplyByLines(codec: Codec, id: RequestId, s: seq<Byte>)
    ensures Reply(codec, id, s) == Verdict(ReadLines(codec, id, START, Lines(s)))
  {
    LinesAreClosedLines(s, []);
    assert [] + s == s;
  }

  /** Does the stream behind this buffer end in CR, given a pending CR before the buffer? */
  predicate EndsPending(skip: bool, buffer: seq<Byte>) {
    if buffer == [] then skip else EndsInCr(buffer)
  }

  lemma EndsAfterChunk(s: seq<Byte>, t: seq<Byte>)
    ensures EndsInCr(s + t) == EndsPending(EndsInCr(s), Open(s) + t)
    ensures Open(s) + SkipLf(EndsInCr(s), t) == SkipLf(EndsInCr(s), Open(s) + t)
    ensures EndsInCr(s) ==> Open(s) == []
    ensures NoEnd(Open(s))
  {
    LinesExtend(s, t);
    EndsAfterOpen(s, Open(s), t);
  }

  lemma EndsAfterOpen(s: seq<Byte>, open: seq<Byte>, t: seq<Byte>)
    requires EndsInCr(s) ==> open == []
    requires NoEnd(open)
    ensures EndsInCr(s + t) == EndsPending(EndsInCr(s), open + t)
    ensures open + SkipLf(EndsInCr(s), t) == SkipLf(EndsInCr(s), open + t)
  {
  }

  /** One buffered line is read before the rest of the buffer. */
  lemma ReadFirst(codec: Codec, id: RequestId, r: Reader, s: seq<Byte>, e: nat)
    requires e < |s| && NoEnd(s[..e]) && IsEnd(s[e])
    ensures ReadLines(codec, id, r, Lines(s)) ==
            match ReadLine(codec, id, r, s[..e])
            case Stop(o) => Stop(o)
            case Continue(next) => ReadLines(codec, id, next, Lines(Rest(s, e)))
    ensures Open(s) == Open(Rest(s, e))
    ensures EndsInCr(s) == EndsPending(s[e] == CR, s[e + 1..])
  {
    LinesAt(s, e);
    var line, rest := s[..e], Lines(Rest(s, e));
    assert ([line] + rest)[0] == line && ([line] + rest)[1..] == rest;
  }

  // ---------------------------------------------------------------------------
  // The incremental reader
  // ---------------------------------------------------------------------------

  /** First index at or after `from` that holds a CR or LF, or the length. */
  method Search(s: seq<Byte>, from: nat) returns (e: nat)
    requires from <= |s| && NoEnd(s[..from])
    ensures e == FirstEnd(s)
  {
    e := from;
    while e < |s| && !IsEnd(s[e])
      invariant from <= e <= |s|
      invariant NoEnd(s[..e])
    {
      e := e + 1;
    }
    FirstEndIs(s, e);
  }

  /** In the middle of a chunk: the unread part of the buffer decides the rest of the stream. */
  ghost predicate Reading(codec: Codec, id: RequestId, r: Reader, skip: bool, buffer: seq<Byte>, offset: nat,
                          whole: LineStep, stream: seq<Byte>)
  {
    && Ahead(codec, id, r, SkipLf(skip, buffer), whole, stream)
    && EndsInCr(stream) == EndsPending(skip, buffer)
    && offset <= |buffer| && NoEnd(buffer[..offset])
    && (skip ==> offset == 0)
  }

  /** What the unread bytes still have to say. */
  ghost predicate Ahead(codec: Codec, id: RequestId, r: Reader, unread: seq<Byte>, whole: LineStep, stream: seq<Byte>) {
    whole == ReadLines(codec, id, r, Lines(unread)) && Open(stream) == Open(unread)
  }

  lemma ReadingUnread(codec: Codec, id: RequestId, r: Reader, skip: bool, buffer: seq<Byte>, offset: nat,
                      whole: LineStep, stream: seq<Byte>)
    requires Reading(codec, id, r, skip, buffer, offset, whole, stream)
    ensures Reading(codec, id, r, skip && buffer == [], SkipLf(skip, buffer), offset, whole, stream)
  {
  }

  lemma ReadingEnd(codec: Codec, id: RequestId, r: Reader, skip: bool, buffer: seq<Byte>,
                   whole: LineStep, stream: seq<Byte>)
    requires Ahead(codec, id, r, buffer, whole, stream) && FirstEnd(buffer) == |buffer|
    requires EndsInCr(stream) == EndsPending(skip, buffer) && (skip ==> buffer == [])
    ensures whole == Continue(r) && buffer == Open(stream) && skip == EndsInCr(stream)
  {
  }

  lemma ReadingNext(codec: Codec, id: RequestId, r: Reader, skip: bool, buffer: seq<Byte>, e: nat,
                    whole: LineStep, stream: seq<Byte>)
    requires Ahead(codec, id, r, buffer, whole, stream) && EndsInCr(stream) == EndsPending(skip, buffer)
    requires e == FirstEnd(buffer) < |buffer|
    ensures match ReadLine(codec, id, r, buffer[..e])
            case Stop(o) => whole == Stop(o)
            case Continue(next) => Reading(codec, id, next, buffer[e] == CR, buffer[e + 1..], 0, whole, stream)
  {
    var step := ReadLine(codec, id, r, buffer[..e]);
    ReadFirst(codec, id, r, buffer, e);
    if step.Continue? {
      AheadOf(codec, id, step.reader, buffer[e] == CR, buffer[e + 1..], whole, stream);
    }
  }

  lemma AheadOf(codec: Codec, id: RequestId, r: Reader, skip: bool, buffer: seq<Byte>, whole: LineStep,
                stream: seq<Byte>)
    requires whole == ReadLines(codec, id, r, Lines(SkipLf(skip, buffer)))
    requires Open(stream) == Open(SkipLf(skip, buffer)) && EndsInCr(stream) == EndsPending(skip, buffer)
    ensures Reading(codec, id, r, skip, buffer, 0, whole, stream)
  {
  }

  class SseReply {
    const codec: Codec
    const requestId: RequestId
    var buffer: seq<Byte>
    var data: seq<string>
    var total: nat
    var events: nat
    var skipLf: bool
    var firstLine: bool
    var scanOffset: nat
    ghost var fed: seq<Byte>

    function State(): Reader reads this { Reader(data, events, firstLine) }

    /** Between calls: everything fed so far has been read and has given no answer. */
    ghost predicate Valid()
      reads this
    {
      && total == |fed| <= RESPONSE_BYTES
      && ReadLines(codec, requestId, START, Lines(fed)) == Continue(State())
      && buffer == Open(fed)
      && skipLf == EndsInCr(fed)
      && scanOffset == |buffer|
    }

    constructor (codec: Codec, requestId: RequestId)
      ensures Valid() && fed == [] && this.codec == codec && this.requestId == requestId
    {
      this.codec, this.requestId := codec, requestId;
      buffer, data, total, events := [], [], 0, 0;
      skipLf, firstLine, scanOffset := false, true, 0;
      fed := [];
      new;
      FirstEndIs([], 0);
    }

    /** Read one complete line, as `ReadLine` says. */
    method TakeLine(line: seq<Byte>) returns (outcome: Outcome)
      modifies this`data, this`events, this`firstLine
      ensures match ReadLine(codec, requestId, old(State()), line)
              case Stop(stopped) => outcome == stopped && outcome != Pending
              case Continue(next) => outcome == Pending && State() == next
    {
      var decoded := codec.decode(line);
      if decoded.None? {
        return Failed(InvalidUtf8);
      }
      var text := decoded.value;
      if firstLine {
        text := StripBom(text);
        firstLine := false;
      }
      if text == "" {
        events := events + 1;
        if events > MAX_EVENTS {
          return Failed(EventLimit);
        }
        if data != [] {
          var raw := codec.encode(Texts.Join(data, '\n'));
          data := [];
          var value := codec.parse(raw);
          if value.None? {
            return Failed(InvalidJson);
          }
          if ResponseMatches(value.value, requestId) {
            return Found(raw);
          }
        }
      } else if "data:" <= text {
        data := data + [DataField(text)];
      }
      return Pending;
    }

    /** Drop the LF of a CRLF whose CR ended the previous line, once a byte is there. */
    method SkipPendingLf()
      modifies this`buffer, this`skipLf
      ensures buffer == SkipLf(old(skipLf), old(buffer))
      ensures skipLf == (old(skipLf) && old(buffer) == [])
    {
      if skipLf && buffer != [] {
        if buffer[0] == LF {
          buffer := buffer[1..];
        }
        skipLf := false;
      }
    }

    /** Read buffered lines until one gives an answer or no complete line is left. */
    method Drain(ghost whole: LineStep, ghost stream: seq<Byte>) returns (outcome: Outcome)
      requires Reading(codec, requestId, State(), skipLf, buffer, scanOffset, whole, stream)
      modifies this`buffer, this`data, this`events, this`skipLf, this`firstLine, this`scanOffset
      ensures outcome == Verdict(whole)
      ensures outcome == Pending ==> whole == Continue(State())
      ensures outcome == Pending ==> buffer == Open(stream) && skipLf == EndsInCr(stream)
      ensures outcome == Pending ==> scanOffset == |buffer|
    {
      while true
        invariant Reading(codec, requestId, State(), skipLf, buffer, scanOffset, whole, stream)
        decreases |buffer|
      {
        ReadingUnread(codec, requestId, State(), skipLf, buffer, scanOffset, whole, stream);
        SkipPendingLf();
        var end := Search(buffer, scanOffset);
        if end == |buffer| {
          scanOffset := |buffer|;
          ReadingEnd(codec, requestId, State(), skipLf, buffer, whole, stream);
          return Pending;
        }
        ReadingNext(codec, requestId, State(), skipLf, buffer, end, whole, stream);
        var line := buffer[..end];
        skipLf := buffer[end] == CR;
        buffer := buffer[end + 1..];
        scanOffset := 0;
        outcome := TakeLine(line);
        if outcome != Pending {
          return;
        }
      }
    }

    method Feed(chunk: seq<Byte>) returns (outcome: Outcome)
      requires Valid()
      modifies this
      ensures fed == old(fed) + chunk
      ensures outcome == if |fed| > RESPONSE_BYTES then Failed(SizeLimit) else Reply(codec, requestId, fed)
      ensures outcome == Pending ==> Valid()
    {
      fed := fed + chunk;
      total := total + |chunk|;
      if total > RESPONSE_BYTES {
        return Failed(SizeLimit);
      }
      ResumeAt(codec, requestId, old(fed), chunk);
      ReplyByLines(codec, requestId, fed);
      EndsAfterChunk(old(fed), chunk);
      buffer := buffer + chunk;
      assert buffer[..scanOffset] == old(buffer);
      outcome := Drain(ReadLines(codec, requestId, START, Lines(fed)), fed);
    }
  }

  // ---------------------------------------------------------------------------
  // Every way of cutting a stream
  // ---------------------------------------------------------------------------

  function Concat(chunks: seq<seq<Byte>>): seq<Byte> {
    if chunks == [] then [] else Concat(chunks[..|chunks| - 1]) + chunks[|chunks| - 1]
  }

  lemma {:induction false} ConcatPrefix(chunks: seq<seq<Byte>>, k: nat)
    requires k <= |chunks|
    ensures Concat(chunks[..k]) <= Concat(chunks)
    decreases |chunks|
  {
    if k == |chunks| {
      assert chunks[..k] == chunks;
    } else {
      var init := chunks[..|chunks| - 1];
      assert chunks[..k] == init[..k];
      ConcatPrefix(init, k);
    }
  }

  /** How many leading chunks fit into the response limit together. */
  function Fitting(chunks: seq<seq<Byte>>): (k: nat)
    ensures k <= |chunks| && |Concat(chunks[..k])| <= RESPONSE_BYTES
    ensures k < |chunks| ==> |Concat(chunks[..k + 1])| > RESPONSE_BYTES
  {
    if chunks == [] then 0
    else
      var init := chunks[..|chunks| - 1];
      var k := Fitting(init);
      assert chunks[..k] == init[..k];
      if k < |init| then
        assert chunks[..k + 1] == init[..k + 1];
        k
      else if |Concat(chunks)| <= RESPONSE_BYTES then
        assert chunks[..|chunks|] == chunks;
        |chunks|
      else
        assert chunks[..|chunks|] == chunks;
        k
  }

  /** An answer never changes when more of the stream arrives. */
  lemma ReplyStable(codec: Codec, id: RequestId, s: seq<Byte>, t: seq<Byte>)
    requires Reply(codec, id, s) != Pending
    ensures Reply(codec, id, s + t) == Reply(codec, id, s)
  {
    ReplyByLines(codec, id, s);
    ReplyByLines(codec, id, s + t);
    LinesExtend(s, t);
    ReadLinesConcat(codec, id, START, Lines(s), Lines(Open(s) + SkipLf(EndsInCr(s), t)));
  }

  lemma ReplyStablePrefix(codec: Codec, id: RequestId, s: seq<Byte>, whole: seq<Byte>)
    requires s <= whole && Reply(codec, id, s) != Pending
    ensures Reply(codec, id, whole) == Reply(codec, id, s)
  {
    assert whole == s + whole[|s|..];
    ReplyStable(codec, id, s, whole[|s|..]);
  }

  /**
   Feed chunks until the first answer. The cuts do not matter: the answer is that of the
   whole stream, and beyond the limit that of the chunks that still fitted, or a size error.
   */
  method FeedChunks(codec: Codec, id: RequestId, chunks: seq<seq<Byte>>) returns (outcome: Outcome)
    ensures |Concat(chunks)| <= 8_388_608 ==> outcome == Reply(codec, id, Concat(chunks))
    ensures |Concat(chunks)| > 8_388_608 ==>
              var kept := Reply(codec, id, Concat(chunks[..Fitting(chunks)]));
              outcome == if kept == Pending then Failed(SizeLimit) else kept
  {
    var parser := new SseReply(codec, id);
    outcome := Pending;
    ReplyByLines(codec, id, []);
    LinesNone([]);
    for i := 0 to |chunks|
      invariant parser.Valid() && parser.codec == codec && parser.requestId == id && fresh(parser)
      invariant outcome == Pending
      invariant parser.fed == Concat(chunks[..i])
      invariant Reply(codec, id, parser.fed) == Pending
    {
      outcome := parser.Feed(chunks[i]);
      assert chunks[..i + 1][..i] == chunks[..i];
      if outcome != Pending {
        FirstAnswerDecides(codec, id, chunks, i + 1, outcome);
        return;
      }
    }
    assert chunks[..|chunks|] == chunks;
  }

  lemma FirstAnswerDecides(codec: Codec, id: RequestId, chunks: seq<seq<Byte>>, n: nat, outcome: Outcome)
    requires 0 < n <= |chunks| && outcome != Pending
    requires |Concat(chunks[..n - 1])| <= RESPONSE_BYTES && Reply(codec, id, Concat(chunks[..n - 1])) == Pending
    requires outcome == if |Concat(chunks[..n])| > RESPONSE_BYTES then Failed(SizeLimit)
      else Reply(codec, id, Concat(chunks[..n]))
    ensures |Concat(chunks)| <= RESPONSE_BYTES ==> outcome == Reply(codec, id, Concat(chunks))
    ensures |Concat(chunks)| > RESPONSE_BYTES ==>
              var kept := Reply(codec, id, Concat(chunks[..Fitting(chunks)]));
              outcome == if kept == Pending then Failed(SizeLimit) else kept
  {
    var k := Fitting(chunks);
    ConcatPrefix(chunks, n);
    if |Concat(chunks[..n])| > RESPONSE_BYTES {
      FittingIs(chunks, n - 1);
    } else {
      ReplyStablePrefix(codec, id, Concat(chunks[..n]), Concat(chunks));
      FittingAtLeast(chunks, n);
      assert chunks[..k][..n] == chunks[..n];
      ConcatPrefix(chunks[..k], n);
      ReplyStablePrefix(codec, id, Concat(chunks[..n]), Concat(chunks[..k]));
    }
  }

  lemma FittingAtLeast(chunks: seq<seq<Byte>>, n: nat)
    requires n <= |chunks| && |Concat(chunks[..n])| <= RESPONSE_BYTES
    ensures n <= Fitting(chunks)
  {
    var k := Fitting(chunks);
    if k < n {
      assert chunks[..n][..k + 1] == chunks[..k + 1];
      ConcatPrefix(chunks[..n], k + 1);
    }
  }

  lemma FittingIs(chunks: seq<seq<Byte>>, n: nat)
    requires n < |chunks| && |Concat(chunks[..n])| <= RESPONSE_BYTES < |Concat(chunks[..n + 1])|
    ensures n == Fitting(chunks)
  {
    FittingAtLeast(chunks, n);
    var k := Fitting(chunks);
    if n < k {
      assert chunks[..k][..n + 1] == chunks[..n + 1];
      ConcatPrefix(chunks[..k], n + 1);
    }
  }

  // ---------------------------------------------------------------------------
  // What the answer is, in terms of line numbers
  // ---------------------------------------------------------------------------

  function TextAt(codec: Codec, lines: seq<seq<Byte>>, i: nat): Option<string>
    requires i < |lines|
  {
    match codec.decode(lines[i])
    case None => None
    case Some(text) => Some(if i == 0 && text != "" && text[0] == '\U{FEFF}' then text[1..] else text)
  }

  predicate BlankAt(codec: Codec, lines: seq<seq<Byte>>, i: nat)
    requires i < |lines|
  {
    TextAt(codec, lines, i) == Some("")
  }

  /** The line after the last blank line before line `i`. */
  function EventStart(codec: Codec, lines: seq<seq<Byte>>, i: nat): (start: nat)
    requires i <= |lines|
    ensures start <= i
  {
    if i == 0 || BlankAt(codec, lines, i - 1) then i else EventStart(codec, lines, i - 1)
  }

  function DataBetween(codec: Codec, lines: seq<seq<Byte>>, from: nat, to: nat): seq<string>
    requires from <= to <= |lines|
  {
    if from == to then []
    else
      DataBetween(codec, lines, from, to - 1) + DataOf(TextAt(codec, lines, to - 1))
  }

  /** What a line adds to its event: after `data:`, and after one space if there is one. */
  function DataOf(text: Option<string>): seq<string> {
    if text == None || |text.value| < 5 || text.value[..5] != "data:" then []
    else if |text.value| > 5 && text.value[5] == ' ' then [text.value[6..]]
    else [text.value[5..]]
  }

  function EventData(codec: Codec, lines: seq<seq<Byte>>, i: nat): seq<string>
    requires i <= |lines|
  {
    DataBetween(codec, lines, EventStart(codec, lines, i), i)
  }

  function BlankCount(codec: Codec, lines: seq<seq<Byte>>, i: nat): nat
    requires i <= |lines|
  {
    if i == 0 then 0
    else BlankCount(codec, lines, i - 1) + if BlankAt(codec, lines, i - 1) then 1 else 0
  }

  function AnswerAt(codec: Codec, id: RequestId, lines: seq<seq<Byte>>, i: nat): Outcome
    requires i < |lines|
  {
    if TextAt(codec, lines, i).None? then Failed(InvalidUtf8)
    else if !BlankAt(codec, lines, i) then Pending
    else if BlankCount(codec, lines, i + 1) > 4096 then Failed(EventLimit)
    else if EventData(codec, lines, i) == [] then Pending
    else
      var raw := codec.encode(Texts.Join(EventData(codec, lines, i), '\n'));
      if codec.parse(raw).None? then Failed(InvalidJson)
      else if Answers(codec.parse(raw).value, id) then Found(raw)
      else Pending
  }

  /** A JSON-RPC 2.0 response with the id of the request: its members, one by one. */
  predicate Answers(value: Json, id: RequestId) {
    match value
    case Object(members) =>
      && Member(members, "jsonrpc") == Some(Str("2.0"))
      && Member(members, "id") == Some(if id.TextId? then Str(id.text) else Int(id.number))
      && Member(members, "method") == None
      && (Member(members, "result") == None <==> Member(members, "error") != None)
    case _ => false
  }

  function Member(members: map<string, Json>, name: string): Option<Json> {
    if name in members then Some(members[name]) else None
  }

  /** The event that ends at blank line `i` is within the budget and its data is this payload. */
  predicate Carries(codec: Codec, lines: seq<seq<Byte>>, i: nat, raw: seq<Byte>)
    requires i < |lines|
  {
    && BlankAt(codec, lines, i) && BlankCount(codec, lines, i + 1) <= 4096
    && EventData(codec, lines, i) != [] && raw == codec.encode(Texts.Join(EventData(codec, lines, i), '\n'))
  }

  /** The event that ends at line `i` is the response, and no line before has an answer. */
  ghost predicate FirstFoundAt(codec: Codec, id: RequestId, lines: seq<seq<Byte>>, i: nat, raw: seq<Byte>)
    requires i < |lines|
  {
    && NoAnswerBefore(codec, id, lines, i) && Carries(codec, lines, i, raw)
    && codec.parse(raw).Some? && Answers(codec.parse(raw).value, id)
  }

  /**
   A payload is found exactly when it is the data of an event, it parses to an object with version
   2.0, the id of the request, no method and either a result or an error, and no line before the
   end of that event has an answer.
   */
  lemma FoundExactly(codec: Codec, id: RequestId, stream: seq<Byte>, raw: seq<Byte>)
    ensures var lines := ClosedLines(Normalize(stream), []);
      Reply(codec, id, stream) == Found(raw) <==>
        exists i :: 0 <= i < |lines| && FirstFoundAt(codec, id, lines, i, raw)
  {
    var lines := ClosedLines(Normalize(stream), []);
    var first := FirstAnswer(codec, id, lines);
    ReplyIsFirstAnswer(codec, id, stream, first);
    if Reply(codec, id, stream) == Found(raw) {
      assert FirstFoundAt(codec, id, lines, first, raw);
    }
    if i :| 0 <= i < |lines| && FirstFoundAt(codec, id, lines, i, raw) {
      assert AnswerAt(codec, id, lines, i) == Found(raw);
      assert i == first;
    }
  }

  ghost predicate NoAnswerBefore(codec: Codec, id: RequestId, lines: seq<seq<Byte>>, i: nat)
    requires i <= |lines|
  {
    forall j :: 0 <= j < i ==> AnswerAt(codec, id, lines, j) == Pending
  }

  lemma FirstAnswer(codec: Codec, id: RequestId, lines: seq<seq<Byte>>) returns (i: nat)
    ensures i <= |lines| && NoAnswerBefore(codec, id, lines, i)
    ensures i < |lines| ==> AnswerAt(codec, id, lines, i) != Pending
  {
    i := 0;
    while i < |lines| && AnswerAt(codec, id, lines, i) == Pending
      invariant i <= |lines| && NoAnswerBefore(codec, id, lines, i)
    {
      i := i + 1;
    }
  }

  /** What the reader has kept after `i` lines without an answer. */
  function Kept(codec: Codec, lines: seq<seq<Byte>>, i: nat): Reader
    requires i <= |lines|
  {
    Reader(EventData(codec, lines, i), BlankCount(codec, lines, i), i == 0)
  }

  lemma QuietLine(codec: Codec, id: RequestId, lines: seq<seq<Byte>>, i: nat)
    requires i < |lines| && AnswerAt(codec, id, lines, i) == Pending
    ensures ReadLine(codec, id, Kept(codec, lines, i), lines[i]) == Continue(Kept(codec, lines, i + 1))
  {
  }

  lemma LoudLine(codec: Codec, id: RequestId, lines: seq<seq<Byte>>, i: nat)
    requires i < |lines| && AnswerAt(codec, id, lines, i) != Pending
    ensures ReadLine(codec, id, Kept(codec, lines, i), lines[i]) == Stop(AnswerAt(codec, id, lines, i))
  {
  }

  lemma {:induction false} QuietPrefix(codec: Codec, id: RequestId, lines: seq<seq<Byte>>, i: nat)
    requires i <= |lines|
    requires forall j :: 0 <= j < i ==> AnswerAt(codec, id, lines, j) == Pending
    ensures ReadLines(codec, id, START, lines[..i]) == Continue(Kept(codec, lines, i))
  {
    if i > 0 {
      QuietPrefix(codec, id, lines, i - 1);
      QuietLine(codec, id, lines, i - 1);
      ReadLinesPush(codec, id, lines[..i - 1], lines[i - 1]);
      assert lines[..i] == lines[..i - 1] + [lines[i - 1]];
    }
  }

  lemma ReadLinesPush(codec: Codec, id: RequestId, lines: seq<seq<Byte>>, line: seq<Byte>)
    requires ReadLines(codec, id, START, lines).Continue?
    ensures ReadLines(codec, id, START, lines + [line])
            == ReadLine(codec, id, ReadLines(codec, id, START, lines).reader, line)
  {
    ReadLinesConcat(codec, id, START, lines, [line]);
    assert [line][1..] == [];
  }

  /**
   The answer is the one of the first line that has one: a line that is not UTF-8, a blank
   line over the event budget, or a blank line whose event is not JSON or is the response.
   */
  lemma ReplyIsFirstAnswer(codec: Codec, id: RequestId, stream: seq<Byte>, i: nat)
    requires i <= |ClosedLines(Normalize(stream), [])|
    requires forall j :: 0 <= j < i ==> AnswerAt(codec, id, ClosedLines(Normalize(stream), []), j) == Pending
    ensures var lines := ClosedLines(Normalize(stream), []);
            if i == |lines| then Reply(codec, id, stream) == Pending
            else AnswerAt(codec, id, lines, i) != Pending ==> Reply(codec, id, stream) == AnswerAt(codec, id, lines, i)
  {
    var lines := ClosedLines(Normalize(stream), []);
    QuietPrefix(codec, id, lines, i);
    if i == |lines| {
      assert lines[..i] == lines;
    } else {
      assert lines == lines[..i] + ([lines[i]] + lines[i + 1..]);
      ReadLinesConcat(codec, id, START, lines[..i], [lines[i]] + lines[i + 1..]);
      if AnswerAt(codec, id, lines, i) != Pending {
        LoudLine(codec, id, lines, i);
      }
    }
  }
}
