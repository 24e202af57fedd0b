/**
 The stream side of an external IRC session: chunks of text are framed into CRLF
 lines, each line is parsed, and PING is answered with PONG. What the session writes
 and reports is one output sequence. The event callback is taken not to call back
 into the session.
 */
module IrcSession {
  import opened Wrappers
  import opened Text
  import opened IrcProtocol

  const MAX_BUFFER_BYTES := 8192

  datatype Failure = BufferOverflow | Protocol(error: IrcError)

  datatype Output =
    | Wrote(line: string)
    | Received(message: Message)
    | ProtocolError(failure: Failure)
    | TransportClosed
    | Closed

  datatype State = State(buffer: string, closed: bool)

  /** Complete lines without their CRLF, and the text after the last one. */
  datatype Frames = Frames(lines: seq<string>, rest: string)

  /** First position of CRLF, or -1. */
  function FindCrlf(s: string): (r: int)
    ensures -1 <= r && (0 <= r ==> r + 2 <= |s| && s[r] == '\r' && s[r + 1] == '\n')
    ensures forall i :: 0 <= i < (if r == -1 then |s| - 1 else r) ==> !(s[i] == '\r' && s[i + 1] == '\n')
  {
    if |s| < 2 then -1
    else if s[0] == '\r' && s[1] == '\n' then 0
    else
      var r := FindCrlf(s[1..]);
      assert forall i :: 0 < i < |s| - 1 ==> s[i] == s[1..][i - 1] && s[i + 1] == s[1..][i];
      if r == -1 then -1 else r + 1
  }

  /** The text a PONG echoes: the trailing text, else the first parameter, else nothing. */
  function PongText(m: Message): Option<string> {
    if m.trailing.Some? then m.trailing
    else if m.params != [] then Some(m.params[0])
    else None
  }

  /** One framed line. A PONG that cannot be encoded is reported instead of the message. */
  function HandleLine(line: string): seq<Output> {
    match Parse(line)
    case Err(e) => [ProtocolError(Protocol(e))]
    case Ok(m) =>
      if m.command != "PING" then [Received(m)]
      else
        match Encode("PONG", [], PongText(m))
        case Err(e) => [ProtocolError(Protocol(e))]
        case Ok(pong) => [Wrote(pong), Received(m)]
  }

  function HandleAll(lines: seq<string>): seq<Output> {
    if lines == [] then [] else HandleLine(lines[0]) + HandleAll(lines[1..])
  }

  function Frame(buffer: string): Frames
    decreases |buffer|
  {
    var i := FindCrlf(buffer);
    if i == -1 then Frames([], buffer)
    else
      var later := Frame(buffer[i + 2..]);
      Frames([buffer[..i]] + later.lines, later.rest)
  }

  function Receive(s: State, chunk: string): (State, seq<Output>) {
    if s.closed then (s, [])
    else if Utf8Length(s.buffer + chunk) > MAX_BUFFER_BYTES then
      (s.(buffer := ""), [ProtocolError(BufferOverflow)])
    else
      var f := Frame(s.buffer + chunk);
      (s.(buffer := f.rest), HandleAll(f.lines))
  }

  /** `close`: the transport is closed and the close reported, once. */
  function Shut(s: State): (State, seq<Output>) {
    if s.closed then (s, []) else (s.(closed := true), [TransportClosed, Closed])
  }

  /** The chunks of a stream, received one after the other. */
  function ReceiveAll(s: State, chunks: seq<string>): (State, seq<Output>)
    decreases |chunks|
  {
    if chunks == [] then (s, [])
    else
      var first := Receive(s, chunks[0]);
      var later := ReceiveAll(first.0, chunks[1..]);
      (later.0, first.1 + later.1)
  }

  function Concat(chunks: seq<string>): string {
    if chunks == [] then "" else chunks[0] + Concat(chunks[1..])
  }

  class Session {
    var buffer: string
    var closed: bool
    var outputs: seq<Output>

    function View(): State
      reads this
    {
      State(buffer, closed)
    }

    constructor ()
      ensures View() == State("", false) && outputs == []
    {
      buffer, closed, outputs := "", false, [];
    }

    method Close()
      modifies this
      ensures View() == Shut(old(View())).0
      ensures outputs == old(outputs) + Shut(old(View())).1
    {
      if closed {
        return;
      }
      closed := true;
      outputs := outputs + [TransportClosed];
      outputs := outputs + [Closed];
    }

    /** Appends what one line causes. */
    method ReceiveLine(line: string)
      modifies this`outputs
      ensures outputs == old(outputs) + HandleLine(line)
      ensures Parse(line).Err? ==> outputs == old(outputs) + [ProtocolError(Protocol(Parse(line).error))]
      ensures Parse(line).Ok? && Parse(line).value.command != "PING" ==>
                outputs == old(outputs) + [Received(Parse(line).value)]
    {
      var message := ParseIrcLine(line);
      match message {
        case Err(e) =>
          outputs := outputs + [ProtocolError(Protocol(e))];
        case Ok(m) =>
          if m.command == "PING" {
            match Encode("PONG", [], PongText(m)) {
              case Err(e) =>
                outputs := outputs + [ProtocolError(Protocol(e))];
                return;
              case Ok(pong) =>
                outputs := outputs + [Wrote(pong)];
            }
          }
          outputs := outputs + [Received(m)];
      }
    }

    method ReceiveChunk(chunk: string)
      modifies this
      ensures View() == Receive(old(View()), chunk).0
      ensures outputs == old(outputs) + Receive(old(View()), chunk).1
    {
      if closed {
        return;
      }
      buffer := buffer + chunk;
      if Utf8Length(buffer) > MAX_BUFFER_BYTES {
        buffer := "";
        outputs := outputs + [ProtocolError(BufferOverflow)];
        return;
      }
      ghost var whole := Frame(buffer);
      var lineEnd := FindCrlf(buffer);
      while lineEnd != -1
        invariant !closed
        invariant lineEnd == FindCrlf(buffer)
        invariant outputs + HandleAll(Frame(buffer).lines) == old(outputs) + HandleAll(whole.lines)
        invariant Frame(buffer).rest == whole.rest
        decreases |buffer|
      {
        var line := buffer[..lineEnd];
        HandleAllCons(line, Frame(buffer[lineEnd + 2..]).lines, outputs);
        buffer := buffer[lineEnd + 2..];
        ReceiveLine(line);
        lineEnd := FindCrlf(buffer);
      }
    }
  }

  lemma Associative<T>(a: seq<T>, b: seq<T>, c: seq<T>)
    ensures a + (b + c) == a + b + c
  {
  }

  /** Handling the first of several lines first. */
  lemma HandleAllCons(line: string, lines: seq<string>, before: seq<Output>)
    ensures before + HandleAll([line] + lines) == before + HandleLine(line) + HandleAll(lines)
  {
  }

  // ---------- Chunk independence ----------

  lemma FindCrlfUnique(s: string, i: nat)
    requires i + 2 <= |s| && s[i] == '\r' && s[i + 1] == '\n'
    requires forall j :: 0 <= j < i ==> !(s[j] == '\r' && s[j + 1] == '\n')
    ensures FindCrlf(s) == i
  {
  }

  lemma {:induction false} HandleAllConcat(a: seq<string>, b: seq<string>)
    ensures HandleAll(a + b) == HandleAll(a) + HandleAll(b)
    decreases |a|
  {
    if a == [] {
      assert a + b == b;
    } else {
      assert (a + b)[1..] == a[1..] + b;
      HandleAllConcat(a[1..], b);
      var x, y, z := HandleLine(a[0]), HandleAll(a[1..]), HandleAll(b);
      assert x + (y + z) == (x + y) + z;
    }
  }

  /** More text behind a buffer does not move its first line end. */
  lemma FirstLineStays(a: string, b: string)
    requires FindCrlf(a) != -1
    ensures var i := FindCrlf(a);
            Frame(a + b) == Frames([a[..i]] + Frame(a[i + 2..] + b).lines, Frame(a[i + 2..] + b).rest)
  {
    var i := FindCrlf(a);
    FindCrlfUnique(a + b, i);
    assert (a + b)[..i] == a[..i] && (a + b)[i + 2..] == a[i + 2..] + b;
  }

  /** The lines complete in a front are framed the same whether or not more text follows. */
  lemma {:induction false} FrameConcat(a: string, b: string)
    ensures Frame(a + b).lines == Frame(a).lines + Frame(Frame(a).rest + b).lines
    ensures Frame(a + b).rest == Frame(Frame(a).rest + b).rest
    decreases |a|
  {
    hide FindCrlf, HandleLine, Utf8Length;
    var i := FindCrlf(a);
    if i == -1 {
      assert Frame(a) == Frames([], a);
      assert [] + Frame(a + b).lines == Frame(a + b).lines;
    } else {
      FirstLineStays(a, b);
      FrameConcat(a[i + 2..], b);
      assert Frame(a) == Frames([a[..i]] + Frame(a[i + 2..]).lines, Frame(a[i + 2..]).rest);
      Associative([a[..i]], Frame(a[i + 2..]).lines, Frame(Frame(a).rest + b).lines);
    }
  }

  /** What framing leaves holds no CRLF and is no longer than its input. */
  lemma {:induction false} FrameRest(buffer: string)
    ensures FindCrlf(Frame(buffer).rest) == -1
    ensures Utf8Length(Frame(buffer).rest) <= Utf8Length(buffer)
    decreases |buffer|
  {
    var i := FindCrlf(buffer);
    if i != -1 {
      FrameRest(buffer[i + 2..]);
      assert buffer == buffer[..i + 2] + buffer[i + 2..];
      Utf8LengthConcat(buffer[..i + 2], buffer[i + 2..]);
    }
  }

  /** Between calls the buffer holds no complete line and at most 8192 bytes. */
  predicate Framed(s: State) {
    FindCrlf(s.buffer) == -1 && Utf8Length(s.buffer) <= MAX_BUFFER_BYTES
  }

  lemma {:induction false} ReceiveAllKeepsFramed(s: State, chunks: seq<string>)
    requires Framed(s)
    ensures Framed(ReceiveAll(s, chunks).0)
    decreases |chunks|
  {
    if chunks != [] {
      FrameRest(s.buffer + chunks[0]);
      ReceiveAllKeepsFramed(Receive(s, chunks[0]).0, chunks[1..]);
    }
  }

  /**
   Receiving a stream in any split into chunks causes the same outputs in the same order
   and leaves the same buffer as receiving it whole, if it fits the buffer limit.
   */
  lemma {:induction false} ChunksAreWhole(s: State, chunks: seq<string>)
    requires Framed(s)
    requires Utf8Length(s.buffer + Concat(chunks)) <= MAX_BUFFER_BYTES
    ensures ReceiveAll(s, chunks) == Receive(s, Concat(chunks))
    decreases |chunks|
  {
    hide FindCrlf, HandleLine, HandleAll, Frame, Utf8Length;
    if s.closed {
      ClosedIgnoresAll(s, chunks);
    } else if chunks == [] {
      assert s.buffer + "" == s.buffer;
      QuietChunk(s, "");
    } else {
      var rest := Concat(chunks[1..]);
      assert s.buffer + Concat(chunks) == (s.buffer + chunks[0]) + rest;
      Utf8LengthConcat(s.buffer + chunks[0], rest);
      FrameRest(s.buffer + chunks[0]);
      FrameConcat(s.buffer + chunks[0], rest);
      var s1 := Receive(s, chunks[0]).0;
      Utf8LengthConcat(s1.buffer, rest);
      HandleAllConcat(Frame(s.buffer + chunks[0]).lines, Frame(s1.buffer + rest).lines);
      ChunksAreWhole(s1, chunks[1..]);
    }
  }

  lemma {:induction false} ClosedIgnoresAll(s: State, chunks: seq<string>)
    requires s.closed
    ensures ReceiveAll(s, chunks) == (s, [])
    decreases |chunks|
  {
    if chunks != [] {
      var first := Receive(s, chunks[0]);
      assert first.0 == s && first.1 == [];
      ClosedIgnoresAll(s, chunks[1..]);
      assert first.1 + ReceiveAll(s, chunks[1..]).1 == [];
    }
  }

  /** Two splits of the same stream cannot be told apart. */
  lemma SplitsAgree(s: State, a: seq<string>, b: seq<string>)
    requires Framed(s) && Concat(a) == Concat(b)
    requires Utf8Length(s.buffer + Concat(a)) <= MAX_BUFFER_BYTES
    ensures ReceiveAll(s, a) == ReceiveAll(s, b)
  {
    ChunksAreWhole(s, a);
    ChunksAreWhole(s, b);
  }

  predicate Fits(text: string) {
    Utf8Length(text) <= MAX_BUFFER_BYTES
  }

  /** Only the last character overflows, and no line was complete before it. */
  predicate OnlyLastOverflows(buffer: string, stream: string) {
    && stream != "" && !Fits(buffer + stream)
    && Fits(buffer + stream[..|stream| - 1])
    && FindCrlf(buffer + stream[..|stream| - 1]) == -1
  }

  /** A front of text that fits and holds no CRLF is the same. */
  lemma FrontIsQuiet(a: string, b: string)
    requires Fits(a + b) && FindCrlf(a + b) == -1
    ensures Fits(a) && FindCrlf(a) == -1
  {
    Utf8LengthConcat(a, b);
    forall i | 0 <= i < |a| - 1
      ensures !(a[i] == '\r' && a[i + 1] == '\n')
    {
      assert (a + b)[i] == a[i] && (a + b)[i + 1] == a[i + 1];
    }
  }

  /** Text that fits and completes no line only extends the buffer. */
  lemma QuietChunk(s: State, chunk: string)
    requires !s.closed && Fits(s.buffer + chunk) && FindCrlf(s.buffer + chunk) == -1
    ensures Receive(s, chunk) == (s.(buffer := s.buffer + chunk), [])
  {
  }

  /** When only the last character overflows, every split reports the overflow once and starts afresh. */
  lemma {:induction false} LastOverflows(s: State, chunks: seq<string>)
    requires !s.closed && OnlyLastOverflows(s.buffer, Concat(chunks))
    ensures ReceiveAll(s, chunks) == (s.(buffer := ""), [ProtocolError(BufferOverflow)])
    decreases |chunks|
  {
    hide FindCrlf, Utf8Length, Frame;
    var first, rest := chunks[0], Concat(chunks[1..]);
    if rest == "" {
      assert first + rest == first;
      var s1 := s.(buffer := "");
      assert Receive(s, first) == (s1, [ProtocolError(BufferOverflow)]);
      EmptyBufferIsFramed(s1);
      ChunksAreWhole(s1, chunks[1..]);
      assert s1.buffer + rest == "";
      QuietChunk(s1, rest);
      assert ReceiveAll(s1, chunks[1..]) == (s1, []);
      assert [ProtocolError(BufferOverflow)] + [] == [ProtocolError(BufferOverflow)];
    } else {
      var front := rest[..|rest| - 1];
      assert (first + rest)[..|first + rest| - 1] == first + front;
      assert s.buffer + (first + front) == (s.buffer + first) + front;
      assert s.buffer + (first + rest) == (s.buffer + first) + rest;
      FrontIsQuiet(s.buffer + first, front);
      QuietChunk(s, first);
      LastOverflows(s.(buffer := s.buffer + first), chunks[1..]);
      assert [] + [ProtocolError(BufferOverflow)] == [ProtocolError(BufferOverflow)];
    }
  }

  lemma EmptyBufferIsFramed(s: State)
    requires s.buffer == ""
    ensures Framed(s) && Fits("") && FindCrlf("") == -1
  {
  }

  /** Past the limit, cutting off the last character makes a difference in every other case. */
  lemma CuttingTheLastMatters(s: State, stream: string)
    requires Framed(s) && !s.closed && !Fits(s.buffer + stream) && stream != ""
    requires !OnlyLastOverflows(s.buffer, stream)
    ensures ReceiveAll(s, [stream[..|stream| - 1], stream[|stream| - 1..]]) != Receive(s, stream)
  {
    hide FindCrlf, Utf8Length, Frame, HandleAll;
    var front, last := stream[..|stream| - 1], stream[|stream| - 1..];
    var first := Receive(s, front);
    TwoChunks(s, front, last);
    assert Receive(s, stream) == (s.(buffer := ""), [ProtocolError(BufferOverflow)]);
    if Fits(s.buffer + front) {
      FirstOutputIsNoOverflow(s.buffer + front);
      assert (first.1 + Receive(first.0, last).1)[0] == first.1[0];
    } else {
      SingleCharacterIsQuiet(stream[|stream| - 1]);
      assert "" + last == last == [stream[|stream| - 1]];
      QuietChunk(first.0, last);
    }
  }

  lemma TwoChunks(s: State, a: string, b: string)
    ensures ReceiveAll(s, [a, b]) == (Receive(Receive(s, a).0, b).0, Receive(s, a).1 + Receive(Receive(s, a).0, b).1)
  {
    hide Receive;
    var s1 := Receive(s, a).0;
    assert [a, b][1..] == [b];
    assert |[b][1..]| == 0;
    assert Receive(s1, b).1 + [] == Receive(s1, b).1;
    assert ReceiveAll(s1, [b]) == Receive(s1, b);
  }

  lemma FirstOutputIsNoOverflow(buffer: string)
    requires FindCrlf(buffer) != -1
    ensures var out := HandleAll(Frame(buffer).lines);
      out != [] && out[0] != ProtocolError(BufferOverflow)
  {
    var lines := Frame(buffer).lines;
    assert lines != [] && HandleLine(lines[0]) != [];
    assert HandleAll(lines) == HandleLine(lines[0]) + HandleAll(lines[1..]);
  }

  lemma SingleCharacterIsQuiet(c: char)
    ensures Fits([c]) && FindCrlf([c]) == -1
  {
  }

  /**
   Exactly when the split is immaterial: the session is closed, leftover plus stream fits the buffer,
   or only the last character overflows a buffer without a complete line.
   */
  lemma SplitsAgreeExactly(s: State, stream: string)
    requires Framed(s)
    ensures (forall chunks :: Concat(chunks) == stream ==> ReceiveAll(s, chunks) == Receive(s, stream))
      <==> s.closed || Fits(s.buffer + stream) || OnlyLastOverflows(s.buffer, stream)
  {
    if s.closed || Fits(s.buffer + stream) || OnlyLastOverflows(s.buffer, stream) {
      forall chunks | Concat(chunks) == stream
        ensures ReceiveAll(s, chunks) == Receive(s, stream)
      {
        if s.closed {
          ClosedIgnoresAll(s, chunks);
        } else if Fits(s.buffer + stream) {
          ChunksAreWhole(s, chunks);
        } else {
          LastOverflows(s, chunks);
        }
      }
    } else {
      assert s.buffer + "" == s.buffer;
      CuttingTheLastMatters(s, stream);
      ConcatOfTwo(stream[..|stream| - 1], stream[|stream| - 1..]);
    }
  }

  lemma ConcatOfTwo(a: string, b: string)
    ensures Concat([a, b]) == a + b
  {
    assert [a, b][1..] == [b] && Concat([b]) == b + "";
  }

  /** Past the limit the split matters: one byte more than fits, behind an empty line. */
  lemma SplitMattersPastTheLimit() returns (chunks: seq<string>)
    ensures ReceiveAll(State("", false), chunks) != Receive(State("", false), Concat(chunks))
    ensures Utf8Length(Concat(chunks)) == MAX_BUFFER_BYTES + 1
  {
    var filler := seq(8191, i => 'a');
    chunks := [CRLF, filler];
    assert Concat(chunks[1..]) == filler;
    Utf8LengthConcat(CRLF, filler);
    Utf8LengthAscii(CRLF);
    Utf8LengthAscii(filler);
    var s := State("", false);
    assert "" + Concat(chunks) == Concat(chunks);
    assert Receive(s, Concat(chunks)).0.buffer == "";
    assert "" + CRLF == CRLF && CRLF[2..] == "";
    FindCrlfUnique(CRLF, 0);
    assert Receive(s, CRLF).0 == s;
    assert "" + filler == filler;
    assert FindCrlf(filler) == -1;
    assert Receive(s, filler).0.buffer == filler;
    assert ReceiveAll(s, chunks[1..]).0 == Receive(s, filler).0;
    assert ReceiveAll(s, chunks).0.buffer == filler;
  }

  // ---------- Closing ----------

  datatype Call = ReceiveCall(chunk: string) | CloseCall

  function Perform(s: State, call: Call): (State, seq<Output>) {
    match call
    case ReceiveCall(chunk) => Receive(s, chunk)
    case CloseCall => Shut(s)
  }

  function PerformAll(s: State, calls: seq<Call>): (State, seq<Output>)
    decreases |calls|
  {
    if calls == [] then (s, [])
    else
      var first := Perform(s, calls[0]);
      var later := PerformAll(first.0, calls[1..]);
      (later.0, first.1 + later.1)
  }

  /** A closed session answers no call. */
  lemma {:induction false} ClosedIsSilent(s: State, calls: seq<Call>)
    requires s.closed
    ensures PerformAll(s, calls) == (s, [])
    decreases |calls|
  {
    if calls != [] {
      var first := Perform(s, calls[0]);
      assert first.0 == s && first.1 == [];
      ClosedIsSilent(s, calls[1..]);
      assert first.1 + PerformAll(s, calls[1..]).1 == [];
    }
  }

  /** The first close reports itself after everything before it, and nothing comes after. */
  lemma {:induction false} CloseIsLast(s: State, calls: seq<Call>, k: nat)
    requires !s.closed && k < |calls| && calls[k].CloseCall? && CloseCall !in calls[..k]
    ensures PerformAll(s, calls).1 == PerformAll(s, calls[..k]).1 + [TransportClosed, Closed]
    ensures PerformAll(s, calls).0.closed
    decreases k
  {
    hide Receive;
    var first := Perform(s, calls[0]);
    if k == 0 {
      ClosedIsSilent(first.0, calls[1..]);
      assert calls[..0] == [];
      assert [TransportClosed, Closed] + [] == [] + [TransportClosed, Closed];
    } else {
      ReceivingKeepsOpen(s, calls[0]);
      assert calls[1..][..k - 1] == calls[..k][1..];
      CloseIsLast(first.0, calls[1..], k - 1);
      Associative(first.1, PerformAll(first.0, calls[..k][1..]).1, [TransportClosed, Closed]);
    }
  }

  lemma ReceivingKeepsOpen(s: State, call: Call)
    requires !s.closed && call != CloseCall
    ensures !Perform(s, call).0.closed
  {
  }

  // ---------- PING and PONG ----------

  /**
   A PING is answered exactly when its echo fits a PONG line; then the PONG parses back
   to the echoed text. Otherwise the line is reported as too long and nothing is written.
   */
  lemma PingIsAnswered(line: string)
    requires Parse(line).Ok? && Parse(line).value.command == "PING"
    ensures var m := Parse(line).value;
            var text := if m.trailing.Some? then m.trailing
                        else if m.params == [] then None
                        else Some(m.params[0]);
            var echo := if text.Some? then 2 + Utf8Length(text.value) else 0;
            if 4 + echo + 2 <= 512 then
              exists pong ::
                && HandleLine(line) == [Wrote(pong), Received(m)]
                && 2 <= |pong| && Parse(pong[..|pong| - 2]) == Ok(Message("PONG", [], None, text))
            else HandleLine(line) == [ProtocolError(Protocol(LineTooLong))]
  {
    var m := Parse(line).value;
    ParsedPrints(line);
    var text := PongText(m);
    if m.trailing.None? && m.params != [] {
      assert IsMiddle(m.params[0]);
    }
    EncodePong(text);
    if Encode("PONG", [], text).Ok? {
      ParseEncoded("PONG", [], text);
      var pong := Encode("PONG", [], text).value;
      assert HandleLine(line) == [Wrote(pong), Received(m)];
    }
  }

  /** A PONG of text without line breaks encodes exactly when it fits. */
  lemma EncodePong(text: Option<string>)
    requires text.Some? ==> !HasLineBreak(text.value)
    ensures var wire := Encode("PONG", [], text);
            && Upper("PONG") == "PONG"
            && (wire.Ok? <==> 6 + (if text.Some? then 2 + Utf8Length(text.value) else 0) <= MAX_LINE_BYTES)
            && (wire.Err? ==> wire.error == LineTooLong)
  {
    UpperOfWord("PONG");
    PongLength(text);
  }

  lemma PongLength(text: Option<string>)
    ensures Utf8Length(Line("PONG", [], text) + CRLF) == 6 + (if text.Some? then 2 + Utf8Length(text.value) else 0)
  {
    Utf8LengthConcat(Line("PONG", [], text), CRLF);
    Utf8LengthAscii(CRLF);
    Utf8LengthAscii("PONG");
    PrintedLength("PONG", Words([], text));
    if text.Some? {
      assert Words([], text) == [":" + text.value];
      Utf8LengthConcat(":", text.value);
    }
  }
}
