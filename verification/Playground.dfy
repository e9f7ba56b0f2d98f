/**
The playground stream adapter: a response writer that receives an OpenAI style
server-sent-event stream in arbitrary byte chunks and re-emits it as AG-UI events
(controller/playground_copilotkit.go).

The writer is specified against a form that has neither flags nor a buffer. The bytes
are cut into lines, the lines are read as tokens, and `Render` gives the whole event
list of a token list in closed form.
*/
module Playground {
  import opened Prelude
  import opened LineText

  datatype Usage = Usage(prompt: Option<int>, completion: Option<int>)
  datatype ErrorBody = ErrorBody(message: string, code: string)
  datatype Choice = Choice(delta: string, message: string)
  datatype Chunk = Chunk(choices: seq<Choice>, usage: Option<Usage>, error: Option<ErrorBody>)

  /** The library calls of the adapter: white space trimming, JSON decoding of one
      payload (None when it does not decode) and the text and number of an HTTP status. */
  datatype Codec = Codec(
    trim: seq<Byte> -> seq<Byte>,
    decode: seq<Byte> -> Option<Chunk>,
    statusText: int -> string,
    statusCode: int -> string)

  datatype Ids = Ids(threadId: string, runId: string, messageId: string, model: string)

  datatype Event =
    | RunStarted(threadId: string, runId: string)
    | MessageStart(messageId: string)
    | MessageContent(messageId: string, delta: string)
    | MessageEnd(messageId: string)
    | RunFinished(threadId: string, runId: string, messageId: string, model: string,
                  inputTokens: Option<int>, outputTokens: Option<int>)
    | RunError(message: string, code: Option<string>)
  {
    predicate IsTerminal() { RunFinished? || RunError? }
  }

  /** What one piece of the stream asks the adapter to do. */
  datatype Token =
    | Content(text: string)
    | Counted(usage: Usage)
    | Done
    | Failed(message: string, code: string)
  {
    predicate IsTerminal() { Done? || Failed? }
  }

  const DATA: seq<Byte> := [100, 97, 116, 97, 58]      // "data:"
  const DONE: seq<Byte> := [91, 68, 79, 78, 69, 93]    // "[DONE]"
  const BAD_REQUEST := 400
  const STATUS_OK := 200

  // ----- lines to tokens -----

  function DeltaTokens(choices: seq<Choice>): seq<Token> {
    if choices == [] then []
    else
      var k := |choices| - 1;
      DeltaTokens(choices[..k]) + if choices[k].delta != "" then [Content(choices[k].delta)] else []
  }

  function MessageTokens(choices: seq<Choice>): seq<Token> {
    if choices == [] then []
    else MessageTokens(choices[..|choices| - 1]) + [Content(choices[|choices| - 1].message)]
  }

  function UsageTokens(usage: Option<Usage>): seq<Token> {
    if usage.Some? then [Counted(usage.value)] else []
  }

  function DataTokens(codec: Codec, data: seq<Byte>): seq<Token> {
    if data == [] then []
    else if data == DONE then [Done]
    else match codec.decode(data)
      case None => []
      case Some(chunk) =>
        if chunk.error.Some? then [Failed(chunk.error.value.message, chunk.error.value.code)]
        else UsageTokens(chunk.usage) + DeltaTokens(chunk.choices)
  }

  function LineTokens(codec: Codec, line: seq<Byte>): seq<Token> {
    var trimmed := codec.trim(line);
    if DATA <= trimmed then DataTokens(codec, codec.trim(trimmed[|DATA|..])) else []
  }

  /** The bytes after the last newline are read once, when the run ends; here a payload
      without the `data:` prefix is taken as one whole JSON response. */
  function TailTokens(codec: Codec, rest: seq<Byte>): seq<Token> {
    var trimmed := codec.trim(rest);
    if trimmed == [] then []
    else if DATA <= trimmed then DataTokens(codec, codec.trim(trimmed[|DATA|..]))
    else match codec.decode(trimmed)
      case None => []
      case Some(chunk) =>
        if chunk.error.Some? then [Failed(chunk.error.value.message, chunk.error.value.code)]
        else UsageTokens(chunk.usage) + MessageTokens(chunk.choices)
  }

  function LinesTokens(codec: Codec, lines: seq<seq<Byte>>): seq<Token> {
    if lines == [] then [] else LineTokens(codec, lines[0]) + LinesTokens(codec, lines[1..])
  }

  function StatusToken(codec: Codec, status: int): (t: Token)
    ensures t.IsTerminal()
  {
    if status >= BAD_REQUEST then Failed(codec.statusText(status), codec.statusCode(status)) else Done
  }

  /** Every token a byte stream holds. */
  function StreamTokens(codec: Codec, data: seq<Byte>): seq<Token> {
    LinesTokens(codec, Lines(data)) + TailTokens(codec, Rest(data))
  }

  // ----- tokens to events, in closed form -----

  /** A token list read as a whole: the texts and the last usage before the first terminal
      token, that token, and the texts after it. */
  datatype Summary = Summary(said: seq<string>, usage: Option<Usage>, end: Option<Token>, late: seq<string>)

  function Note(s: Summary, t: Token): Summary {
    if s.end.Some? then (if t.Content? then s.(late := s.late + [t.text]) else s)
    else match t
      case Content(text) => s.(said := s.said + [text])
      case Counted(usage) => s.(usage := Some(usage))
      case Done => s.(end := Some(t))
      case Failed(_, _) => s.(end := Some(t))
  }

  predicate Proper(s: Summary) {
    if s.end.Some? then s.end.value.IsTerminal() else s.late == []
  }

  function Gather(s: Summary, toks: seq<Token>): (r: Summary)
    ensures Proper(s) ==> Proper(r)
  {
    if toks == [] then s else Note(Gather(s, toks[..|toks| - 1]), toks[|toks| - 1])
  }

  const EMPTY := Summary([], None, None, [])

  function Summarize(toks: seq<Token>): (s: Summary)
    ensures Proper(s)
  {
    Gather(EMPTY, toks)
  }

  predicate Ended(toks: seq<Token>) { Summarize(toks).end.Some? }

  /** The run as the client should see it: nothing after the terminal event. */
  function Prompt(s: Summary): Summary { s.(late := []) }

  function Contents(toks: seq<Token>): seq<string> {
    if toks == [] then []
    else
      var last := toks[|toks| - 1];
      Contents(toks[..|toks| - 1]) + if last.Content? then [last.text] else []
  }

  function Deltas(ids: Ids, texts: seq<string>): seq<Event> {
    seq(|texts|, i requires 0 <= i < |texts| => MessageContent(ids.messageId, texts[i]))
  }

  function Started(ids: Ids): Event { RunStarted(ids.threadId, ids.runId) }

  /** An open message holding the given texts. */
  function Opened(ids: Ids, texts: seq<string>): seq<Event> {
    [Started(ids), MessageStart(ids.messageId)] + Deltas(ids, texts)
  }

  function Closing(ids: Ids, usage: Option<Usage>): seq<Event> {
    [MessageEnd(ids.messageId),
     RunFinished(ids.threadId, ids.runId, ids.messageId, ids.model,
                 if usage.Some? then usage.value.prompt else None,
                 if usage.Some? then usage.value.completion else None)]
  }

  function ErrorEvent(message: string, code: string): Event {
    RunError(message, if code != "" && code != "<nil>" then Some(code) else None)
  }

  /** The events before the end of the run, the events that end it, and the content that is
      still emitted afterwards. */
  function Before(ids: Ids, s: Summary): seq<Event> {
    if s.said != [] || s.end == Some(Done) then Opened(ids, s.said)
    else if s.end.Some? then [Started(ids)]
    else []
  }

  function End(ids: Ids, s: Summary): seq<Event> {
    match s.end
    case None => []
    case Some(Failed(message, code)) => [ErrorEvent(message, code)]
    case Some(_) => Closing(ids, s.usage)
  }

  function Late(ids: Ids, s: Summary): seq<Event> {
    if s.late == [] then []
    else (if s.said != [] || s.end == Some(Done) then [] else [MessageStart(ids.messageId)]) + Deltas(ids, s.late)
  }

  function Render(ids: Ids, s: Summary): seq<Event> {
    Before(ids, s) + End(ids, s) + Late(ids, s)
  }

  /** The events up to and including the first terminal one. */
  function UpToTerminal(events: seq<Event>): seq<Event> {
    if events == [] then []
    else if events[0].IsTerminal() then events[..1]
    else [events[0]] + UpToTerminal(events[1..])
  }

  /** The reference result: it depends on the bytes and the final status alone. */
  function Expected(codec: Codec, ids: Ids, data: seq<Byte>, status: int): seq<Event> {
    Render(ids, Prompt(Summarize(StreamTokens(codec, data) + [StatusToken(codec, status)])))
  }

  // ----- calls on the writer -----

  datatype Call = Write(data: seq<Byte>) | Flush | WriteHeader(code: int)

  function BytesOf(calls: seq<Call>): seq<Byte> {
    if calls == [] then []
    else
      var last := calls[|calls| - 1];
      BytesOf(calls[..|calls| - 1]) + if last.Write? then last.data else []
  }

  function StatusOf(calls: seq<Call>): int {
    if calls == [] then STATUS_OK
    else
      var last := calls[|calls| - 1];
      if last.WriteHeader? then last.code else StatusOf(calls[..|calls| - 1])
  }

  /** The abstract writer: unread bytes, summary of the tokens acted on, upstream status. */
  datatype State = State(pending: seq<Byte>, sum: Summary, status: int)

  function Drain(codec: Codec, s: State): State {
    s.(pending := Rest(s.pending), sum := Gather(s.sum, LinesTokens(codec, Lines(s.pending))))
  }

  function Step(codec: Codec, s: State, call: Call): State {
    match call
    case Write(data) =>
      if s.sum.end.Some? then s
      else
        var fed := s.(pending := s.pending + data);
        if s.status >= BAD_REQUEST then fed else Drain(codec, fed)
    case Flush => Drain(codec, s)
    case WriteHeader(code) => s.(status := code)
  }

  function Run(codec: Codec, calls: seq<Call>): State {
    if calls == [] then State([], EMPTY, STATUS_OK)
    else Step(codec, Run(codec, calls[..|calls| - 1]), calls[|calls| - 1])
  }

  /** The summary once the run has been finished. */
  function Finished(codec: Codec, s: State): Summary {
    if s.sum.end.Some? then s.sum
    else
      var all := Gather(Drain(codec, s).sum, TailTokens(codec, Rest(s.pending)));
      if all.end.Some? then all else Note(all, StatusToken(codec, s.status))
  }

  function Output(codec: Codec, ids: Ids, calls: seq<Call>): seq<Event> {
    Render(ids, Finished(codec, Run(codec, calls)))
  }

  lemma {:induction false} LinesTokensConcat(codec: Codec, a: seq<seq<Byte>>, b: seq<seq<Byte>>)
    ensures LinesTokens(codec, a + b) == LinesTokens(codec, a) + LinesTokens(codec, b)
  {
    if a == [] {
      assert a + b == b;
    } else {
      assert (a + b)[1..] == a[1..] + b;
      LinesTokensConcat(codec, a[1..], b);
    }
  }

  lemma GatherSnoc(s: Summary, toks: seq<Token>, t: Token)
    ensures Gather(s, toks + [t]) == Note(Gather(s, toks), t)
  {
    assert (toks + [t])[..|toks|] == toks;
  }

  lemma {:induction false} GatherConcat(s: Summary, a: seq<Token>, b: seq<Token>)
    ensures Gather(s, a + b) == Gather(Gather(s, a), b)
  {
    if b == [] {
      assert a + b == a;
    } else {
      var k := |b| - 1;
      assert a + b == (a + b[..k]) + [b[k]];
      GatherSnoc(s, a + b[..k], b[k]);
      GatherConcat(s, a, b[..k]);
    }
  }

  /** After the end only late content is added. */
  lemma {:induction false} GatherEnded(s: Summary, toks: seq<Token>)
    requires s.end.Some?
    ensures Gather(s, toks) == s.(late := s.late + Contents(toks))
  {
    if toks != [] {
      GatherEnded(s, toks[..|toks| - 1]);
    }
  }

  /** One turn of the reading loop, and the state in which it stops. */
  lemma DrainLine(codec: Codec, line: seq<Byte>, tail: seq<Byte>, s: Summary, status: int)
    requires NEWLINE !in line
    ensures Drain(codec, State(line + [NEWLINE] + tail, s, status))
         == Drain(codec, State(tail, Gather(s, LineTokens(codec, line)), status))
  {
    FirstLine(line, tail);
    assert ([line] + Lines(tail))[1..] == Lines(tail);
    GatherConcat(s, LineTokens(codec, line), LinesTokens(codec, Lines(tail)));
  }

  lemma DrainNothing(codec: Codec, s: State)
    requires NEWLINE !in s.pending
    ensures Drain(codec, s) == s
  {
    Unbroken(s.pending);
  }

  // ----- chunking independence -----

  /** Where a writer stands: it acted on the lines of a prefix of the bytes that ends at a line
      break, and bytes are dropped only after the end of the run. */
  ghost predicate Reading(codec: Codec, data: seq<Byte>, s: State, read: seq<Byte>, dropped: seq<Byte>) {
    && data == read + s.pending + dropped
    && Rest(read) == []
    && s.sum == Summarize(LinesTokens(codec, Lines(read)))
    && (dropped != [] ==> s.sum.end.Some?)
  }

  lemma ReadMore(codec: Codec, read: seq<Byte>, pending: seq<Byte>)
    requires Rest(read) == []
    ensures Rest(read + Unlines(Lines(pending))) == []
    ensures Summarize(LinesTokens(codec, Lines(read + Unlines(Lines(pending)))))
         == Gather(Summarize(LinesTokens(codec, Lines(read))), LinesTokens(codec, Lines(pending)))
  {
    LinesRoundTrip(pending);
    WholeLines(Lines(pending));
    ConcatAtBreak(read, Unlines(Lines(pending)));
    LinesTokensConcat(codec, Lines(read), Lines(pending));
    GatherConcat(EMPTY, LinesTokens(codec, Lines(read)), LinesTokens(codec, Lines(pending)));
  }

  lemma DrainReading(codec: Codec, data: seq<Byte>, s: State, read: seq<Byte>, dropped: seq<Byte>)
    requires Reading(codec, data, s, read, dropped)
    ensures Reading(codec, data, Drain(codec, s), read + Unlines(Lines(s.pending)), dropped)
  {
    ReadMore(codec, read, s.pending);
    LinesRoundTrip(s.pending);
    Regroup(read, Unlines(Lines(s.pending)), Rest(s.pending), dropped);
    if s.sum.end.Some? {
      GatherEnded(s.sum, LinesTokens(codec, Lines(s.pending)));
    }
  }

  lemma FeedReading(codec: Codec, data: seq<Byte>, s: State, read: seq<Byte>, more: seq<Byte>)
    requires Reading(codec, data, s, read, []) && s.sum.end.None?
    ensures Reading(codec, data + more, s.(pending := s.pending + more), read, [])
  {
    Regroup(read, s.pending, more, []);
    EmptyConcat(read + s.pending);
    EmptyConcat(read + s.pending + more);
  }

  lemma WriteReading(codec: Codec, data: seq<Byte>, s: State, read: seq<Byte>, dropped: seq<Byte>, more: seq<Byte>)
    returns (read': seq<Byte>, dropped': seq<Byte>)
    requires Reading(codec, data, s, read, dropped)
    ensures Reading(codec, data + more, Step(codec, s, Write(more)), read', dropped')
  {
    if s.sum.end.Some? {
      read', dropped' := read, dropped + more;
      Regroup(read, s.pending, dropped, more);
    } else {
      FeedReading(codec, data, s, read, more);
      read', dropped' := read, [];
      if s.status < BAD_REQUEST {
        DrainReading(codec, data + more, s.(pending := s.pending + more), read, []);
        read' := read + Unlines(Lines(s.pending + more));
      }
    }
  }

  lemma StepReading(codec: Codec, data: seq<Byte>, s: State, read: seq<Byte>, dropped: seq<Byte>, call: Call)
    returns (read': seq<Byte>, dropped': seq<Byte>)
    requires Reading(codec, data, s, read, dropped)
    ensures Reading(codec, data + (if call.Write? then call.data else []), Step(codec, s, call), read', dropped')
  {
    read', dropped' := read, dropped;
    EmptyConcat(data);
    match call {
      case WriteHeader(_) =>
      case Flush =>
        DrainReading(codec, data, s, read, dropped);
        read' := read + Unlines(Lines(s.pending));
      case Write(more) =>
        read', dropped' := WriteReading(codec, data, s, read, dropped, more);
    }
  }

  lemma {:induction false} RunReading(codec: Codec, calls: seq<Call>) returns (read: seq<Byte>, dropped: seq<Byte>)
    ensures Reading(codec, BytesOf(calls), Run(codec, calls), read, dropped)
    ensures Run(codec, calls).status == StatusOf(calls)
  {
    if calls == [] {
      read, dropped := [], [];
      assert Lines([]) == [];
    } else {
      var k := |calls| - 1;
      read, dropped := RunReading(codec, calls[..k]);
      read, dropped := StepReading(codec, BytesOf(calls[..k]), Run(codec, calls[..k]), read, dropped, calls[k]);
    }
  }

  lemma SummaryAtBreak(codec: Codec, a: seq<Byte>, b: seq<Byte>)
    requires Rest(a) == []
    ensures Summarize(LinesTokens(codec, Lines(a + b))) == Gather(Summarize(LinesTokens(codec, Lines(a))), LinesTokens(codec, Lines(b)))
    ensures Rest(a + b) == Rest(b)
  {
    ConcatAtBreak(a, b);
    LinesTokensConcat(codec, Lines(a), Lines(b));
    GatherConcat(EMPTY, LinesTokens(codec, Lines(a)), LinesTokens(codec, Lines(b)));
  }

  lemma TokensLeft(codec: Codec, data: seq<Byte>, s: State, read: seq<Byte>, dropped: seq<Byte>)
    requires Reading(codec, data, s, read, dropped)
    ensures Summarize(LinesTokens(codec, Lines(data))) == Gather(s.sum, LinesTokens(codec, Lines(s.pending + dropped)))
    ensures Rest(data) == Rest(s.pending + dropped)
  {
    Assoc(read, s.pending, dropped);
    SummaryAtBreak(codec, read, s.pending + dropped);
  }

  /** The summary of all the tokens a client sent, with the closing status. */
  ghost function WholeSummary(codec: Codec, data: seq<Byte>, status: int): Summary {
    Summarize(StreamTokens(codec, data) + [StatusToken(codec, status)])
  }

  lemma WholeSummaryParts(codec: Codec, data: seq<Byte>, status: int)
    ensures WholeSummary(codec, data, status) == Note(Summarize(StreamTokens(codec, data)), StatusToken(codec, status))
    ensures Summarize(StreamTokens(codec, data))
         == Gather(Summarize(LinesTokens(codec, Lines(data))), TailTokens(codec, Rest(data)))
  {
    GatherSnoc(EMPTY, StreamTokens(codec, data), StatusToken(codec, status));
    GatherConcat(EMPTY, LinesTokens(codec, Lines(data)), TailTokens(codec, Rest(data)));
  }

  /** A finished writer agrees with the whole stream, except that it may lack late content. */
  lemma FinishedSummary(codec: Codec, calls: seq<Call>)
    ensures var fin, all := Finished(codec, Run(codec, calls)), WholeSummary(codec, BytesOf(calls), StatusOf(calls));
            fin.end.Some? && Prompt(fin) == Prompt(all) && fin.late <= all.late
  {
    var s, data := Run(codec, calls), BytesOf(calls);
    var read, dropped := RunReading(codec, calls);
    TokensLeft(codec, data, s, read, dropped);
    WholeSummaryParts(codec, data, s.status);
    if s.sum.end.Some? {
      var lines, tail := LinesTokens(codec, Lines(s.pending + dropped)), TailTokens(codec, Rest(data));
      GatherEnded(s.sum, lines);
      GatherEnded(Gather(s.sum, lines), tail);
    } else {
      assert s.pending + dropped == s.pending;
    }
  }

  /** Up to and including the terminal event, the client sees what the bytes and the final
      status determine, however the bytes were cut into writes and whenever they were flushed. */
  lemma ChunkingIndependence(codec: Codec, ids: Ids, calls: seq<Call>)
    ensures UpToTerminal(Output(codec, ids, calls)) == Expected(codec, ids, BytesOf(calls), StatusOf(calls))
  {
    FinishedSummary(codec, calls);
    RenderUpToTerminal(ids, Finished(codec, Run(codec, calls)));
  }

  lemma {:induction false} UpToTerminalConcat(a: seq<Event>, b: seq<Event>)
    requires forall i :: 0 <= i < |a| ==> !a[i].IsTerminal()
    ensures UpToTerminal(a + b) == a + UpToTerminal(b)
  {
    if a == [] {
      assert a + b == b;
    } else {
      assert (a + b)[1..] == a[1..] + b;
      UpToTerminalConcat(a[1..], b);
    }
  }

  lemma RenderUpToTerminal(ids: Ids, s: Summary)
    requires s.end.Some? && s.end.value.IsTerminal()
    ensures UpToTerminal(Render(ids, s)) == Render(ids, Prompt(s))
  {
    var a, e, z := Before(ids, s), End(ids, s), Late(ids, s);
    var k := |e| - 1;
    assert Render(ids, s) == (a + e[..k]) + ([e[k]] + z);
    UpToTerminalConcat(a + e[..k], [e[k]] + z);
    assert ([e[k]] + z)[..1] == [e[k]];
  }

  // ----- the whole output: what chunking can change -----

  /** Content that follows the token that ends the run. */
  ghost predicate LateContent(codec: Codec, data: seq<Byte>) {
    Summarize(StreamTokens(codec, data)).late != []
  }

  ghost predicate CarriesBytes(calls: seq<Call>, data: seq<Byte>, status: int) {
    BytesOf(calls) == data && StatusOf(calls) == status
  }

  /** The whole event stream, beyond the terminal event too, is a function of the bytes and the
      final status exactly when no content follows the end of the run. */
  lemma OutputDeterminedIff(codec: Codec, ids: Ids, data: seq<Byte>, status: int)
    ensures (forall c1, c2 :: CarriesBytes(c1, data, status) && CarriesBytes(c2, data, status)
                              ==> Output(codec, ids, c1) == Output(codec, ids, c2))
       <==> !LateContent(codec, data)
  {
    if LateContent(codec, data) {
      var c1, c2 := Disagreement(codec, ids, data, status);
      assert CarriesBytes(c1, data, status) && CarriesBytes(c2, data, status);
    } else {
      forall c | CarriesBytes(c, data, status)
        ensures Output(codec, ids, c) == Expected(codec, ids, data, status)
      {
        OutputWithoutLateContent(codec, ids, c);
      }
    }
  }

  lemma OutputWithoutLateContent(codec: Codec, ids: Ids, calls: seq<Call>)
    requires !LateContent(codec, BytesOf(calls))
    ensures Output(codec, ids, calls) == Expected(codec, ids, BytesOf(calls), StatusOf(calls))
  {
    FinishedSummary(codec, calls);
    WholeSummaryParts(codec, BytesOf(calls), StatusOf(calls));
    var fin, all := Finished(codec, Run(codec, calls)), WholeSummary(codec, BytesOf(calls), StatusOf(calls));
    assert all.late == [];
    assert fin == Prompt(all);
  }

  /** Two ways to send the same bytes: all at once, or with a write that ends where the run ends. */
  lemma Disagreement(codec: Codec, ids: Ids, data: seq<Byte>, status: int) returns (c1: seq<Call>, c2: seq<Call>)
    requires LateContent(codec, data)
    ensures CarriesBytes(c1, data, status) && CarriesBytes(c2, data, status)
    ensures Output(codec, ids, c1) != Output(codec, ids, c2)
  {
    LateNeedsEndedLines(codec, data);
    var s := Summarize(StreamTokens(codec, data));
    c1 := SentWhole(codec, ids, data, status);
    c2 := SentCut(codec, ids, data, status);
    LateIsLonger(ids, s);
  }

  lemma SentWhole(codec: Codec, ids: Ids, data: seq<Byte>, status: int) returns (calls: seq<Call>)
    requires Ended(StreamTokens(codec, data))
    ensures CarriesBytes(calls, data, status)
    ensures Output(codec, ids, calls) == Render(ids, Summarize(StreamTokens(codec, data)))
  {
    calls := [WriteHeader(500), Write(data), WriteHeader(status)];
    WholeWrite(codec, data, status);
  }

  lemma SentCut(codec: Codec, ids: Ids, data: seq<Byte>, status: int) returns (calls: seq<Call>)
    requires Ended(LinesTokens(codec, Lines(data)))
    ensures CarriesBytes(calls, data, status)
    ensures Output(codec, ids, calls) == Render(ids, Prompt(Summarize(StreamTokens(codec, data))))
  {
    var n := EndOfRun(codec, data);
    var p, q := data[..n], data[n..];
    Rejoin(data, n);
    calls := [Write(p), Write(q), WriteHeader(status)];
    CutWrite(codec, p, q, status);
    EarlierEnd(codec, p, q);
  }

  lemma EarlierEnd(codec: Codec, p: seq<Byte>, q: seq<Byte>)
    requires Rest(p) == []
    requires Ended(LinesTokens(codec, Lines(p))) && Summarize(LinesTokens(codec, Lines(p))).late == []
    ensures Summarize(LinesTokens(codec, Lines(p))) == Prompt(Summarize(StreamTokens(codec, p + q)))
  {
    var s, lines := Summarize(LinesTokens(codec, Lines(p))), LinesTokens(codec, Lines(q));
    ConcatAtBreak(p, q);
    LinesTokensConcat(codec, Lines(p), Lines(q));
    GatherConcat(EMPTY, LinesTokens(codec, Lines(p)), lines);
    WholeSummaryParts(codec, p + q, STATUS_OK);
    GatherEnded(s, lines);
    GatherEnded(Gather(s, lines), TailTokens(codec, Rest(q)));
  }

  lemma LateIsLonger(ids: Ids, s: Summary)
    requires s.late != []
    ensures |Render(ids, s)| > |Render(ids, Prompt(s))|
  {
    assert |Deltas(ids, s.late)| == |s.late|;
  }

  lemma WholeWrite(codec: Codec, data: seq<Byte>, status: int)
    requires Ended(StreamTokens(codec, data))
    ensures CarriesBytes([WriteHeader(500), Write(data), WriteHeader(status)], data, status)
    ensures Finished(codec, Run(codec, [WriteHeader(500), Write(data), WriteHeader(status)]))
         == Summarize(StreamTokens(codec, data))
  {
    var a, b, c := WriteHeader(500), Write(data), WriteHeader(status);
    assert [a, b, c][..2] == [a, b] && [a, b][..1] == [a] && [a][..0] == [];
    assert BytesOf([a]) == [];
    EmptyConcat(data);
    assert Run(codec, [a]) == State([], EMPTY, 500);
    assert Run(codec, [a, b, c]) == State(data, EMPTY, status);
    WholeSummaryParts(codec, data, status);
  }

  lemma CutWrite(codec: Codec, p: seq<Byte>, q: seq<Byte>, status: int)
    requires Rest(p) == [] && Ended(LinesTokens(codec, Lines(p)))
    ensures CarriesBytes([Write(p), Write(q), WriteHeader(status)], p + q, status)
    ensures Finished(codec, Run(codec, [Write(p), Write(q), WriteHeader(status)])) == Summarize(LinesTokens(codec, Lines(p)))
  {
    var a, b, c := Write(p), Write(q), WriteHeader(status);
    assert [a, b, c][..2] == [a, b] && [a, b][..1] == [a] && [a][..0] == [];
    EmptyConcat(p);
    assert BytesOf([a]) == p;
    assert Run(codec, [a]) == State([], Summarize(LinesTokens(codec, Lines(p))), STATUS_OK);
    assert Run(codec, [a, b]) == Run(codec, [a]);
  }

  /** The tokens of one line hold a terminal one only on its own. */
  ghost predicate Clean(toks: seq<Token>) {
    |toks| == 1 || forall i :: 0 <= i < |toks| ==> !toks[i].IsTerminal()
  }

  lemma {:induction false} DeltasRunOn(choices: seq<Choice>)
    ensures forall i :: 0 <= i < |DeltaTokens(choices)| ==> !DeltaTokens(choices)[i].IsTerminal()
    ensures forall i :: 0 <= i < |MessageTokens(choices)| ==> !MessageTokens(choices)[i].IsTerminal()
  {
    if choices != [] {
      DeltasRunOn(choices[..|choices| - 1]);
    }
  }

  lemma LinesAreClean(codec: Codec, data: seq<Byte>)
    ensures Clean(LineTokens(codec, data)) && Clean(TailTokens(codec, data))
  {
    var trimmed := codec.trim(data);
    if DATA <= trimmed {
      DataIsClean(codec, codec.trim(trimmed[|DATA|..]));
    } else if codec.decode(trimmed).Some? {
      DeltasRunOn(codec.decode(trimmed).value.choices);
    }
  }

  lemma DataIsClean(codec: Codec, data: seq<Byte>)
    ensures Clean(DataTokens(codec, data))
  {
    if codec.decode(data).Some? {
      DeltasRunOn(codec.decode(data).value.choices);
    }
  }

  lemma {:induction false} RunOn(s: Summary, toks: seq<Token>)
    requires s.end.None? && forall i :: 0 <= i < |toks| ==> !toks[i].IsTerminal()
    ensures Gather(s, toks).end.None?
  {
    if toks != [] {
      RunOn(s, toks[..|toks| - 1]);
    }
  }

  lemma CleanGather(s: Summary, toks: seq<Token>)
    requires s.end.None? && s.late == [] && Clean(toks)
    ensures Gather(s, toks).late == []
  {
    if |toks| == 1 {
      assert toks[..0] == [];
    } else {
      RunOn(s, toks);
    }
  }

  lemma LateNeedsEndedLines(codec: Codec, data: seq<Byte>)
    requires LateContent(codec, data)
    ensures Ended(LinesTokens(codec, Lines(data)))
  {
    if !Ended(LinesTokens(codec, Lines(data))) {
      LinesAreClean(codec, Rest(data));
      CleanGather(Summarize(LinesTokens(codec, Lines(data))), TailTokens(codec, Rest(data)));
      WholeSummaryParts(codec, data, STATUS_OK);
    }
  }

  lemma LastByteEnds(codec: Codec, data: seq<Byte>)
    requires data != [] && Ended(LinesTokens(codec, Lines(data)))
    requires !Ended(LinesTokens(codec, Lines(data[..|data| - 1])))
    ensures Rest(data) == [] && Summarize(LinesTokens(codec, Lines(data))).late == []
  {
    var before := data[..|data| - 1];
    assert Lines(data) == Lines(before) + [Rest(before)];
    LastLine(codec, Lines(before), Rest(before));
  }

  /** The shortest prefix whose lines end the run. */
  lemma {:induction false} EndOfRun(codec: Codec, data: seq<Byte>) returns (n: nat)
    requires Ended(LinesTokens(codec, Lines(data)))
    ensures n <= |data| && Rest(data[..n]) == []
    ensures Ended(LinesTokens(codec, Lines(data[..n]))) && Summarize(LinesTokens(codec, Lines(data[..n]))).late == []
  {
    var k := |data| - 1;
    if Ended(LinesTokens(codec, Lines(data[..k]))) {
      n := EndOfRun(codec, data[..k]);
      assert data[..k][..n] == data[..n];
    } else {
      n := |data|;
      assert data[..n] == data;
      LastByteEnds(codec, data);
    }
  }

  lemma LastLine(codec: Codec, lines: seq<seq<Byte>>, line: seq<Byte>)
    requires !Ended(LinesTokens(codec, lines))
    ensures Summarize(LinesTokens(codec, lines + [line])).late == []
  {
    LinesTokensConcat(codec, lines, [line]);
    EmptyConcat(LineTokens(codec, line));
    LinesAreClean(codec, line);
    CleanGather(Summarize(LinesTokens(codec, lines)), LineTokens(codec, line));
    GatherConcat(EMPTY, LinesTokens(codec, lines), LineTokens(codec, line));
  }

  // ----- the event grammar -----

  /** The run: started first and once, ended at most once, and a success closes the message. */
  ghost predicate RunOrder(events: seq<Event>) {
    && (events != [] ==> events[0].RunStarted?)
    && (forall i :: 0 < i < |events| ==> !events[i].RunStarted?)
    && (forall j :: 0 <= j < |events| && events[j].RunFinished? ==> 0 < j && events[j - 1].MessageEnd?)
    && (forall i, j :: 0 <= i < j < |events| ==> !(events[i].IsTerminal() && events[j].IsTerminal()))
  }

  /** The message: started at most once, and before anything is said in it. */
  ghost predicate MessageOrder(events: seq<Event>) {
    && (forall i, j :: 0 <= i < j < |events| ==> !(events[i].MessageStart? && events[j].MessageStart?))
    && (forall j :: 0 <= j < |events| && (events[j].MessageContent? || events[j].MessageEnd?)
          ==> exists i :: 0 <= i < j && events[i].MessageStart?)
  }

  lemma RenderRunOrder(ids: Ids, s: Summary)
    requires Proper(s)
    ensures RunOrder(Render(ids, s))
    ensures s.end.Some? <==> exists i :: 0 <= i < |Render(ids, s)| && Render(ids, s)[i].IsTerminal()
  {
    var r := Render(ids, s);
    var b, e := |Before(ids, s)|, |End(ids, s)|;
    assert forall i :: 0 <= i < b + e - 1 ==> !r[i].IsTerminal();
    assert forall i :: b + e <= i < |r| ==> r[i] == Late(ids, s)[i - b - e] && !r[i].IsTerminal();
    if s.end.Some? {
      assert r[b + e - 1].IsTerminal();
    }
  }

  lemma RenderMessageOrder(ids: Ids, s: Summary)
    requires Proper(s)
    ensures MessageOrder(Render(ids, s))
  {
    if s.said != [] || s.end == Some(Done) {
      OpenedStarts(ids, s);
      StartedOnce(Render(ids, s), 1);
    } else if s.late != [] {
      FailedStarts(ids, s);
      StartedOnce(Render(ids, s), 2);
    } else {
      NothingStarts(ids, s);
    }
  }

  /** The one start of a message, and nothing of the message before it. */
  ghost predicate StartsAt(events: seq<Event>, k: nat) {
    && k < |events| && events[k].MessageStart?
    && (forall i :: 0 <= i < |events| && events[i].MessageStart? ==> i == k)
    && (forall i :: 0 <= i < |events| && (events[i].MessageContent? || events[i].MessageEnd?) ==> k < i)
  }

  lemma StartedOnce(events: seq<Event>, k: nat)
    requires StartsAt(events, k)
    ensures MessageOrder(events)
  {
  }

  lemma OpenedStarts(ids: Ids, s: Summary)
    requires Proper(s) && (s.said != [] || s.end == Some(Done))
    ensures StartsAt(Render(ids, s), 1)
  {
    var a, z := Opened(ids, s.said), End(ids, s) + Late(ids, s);
    assert StartsAt(a, 1);
    assert forall i :: 0 <= i < |z| ==> !z[i].MessageStart?;
    Assoc(Before(ids, s), End(ids, s), Late(ids, s));
    StartsBefore(a, z, 1);
  }

  lemma StartsBefore(a: seq<Event>, z: seq<Event>, k: nat)
    requires StartsAt(a, k) && forall i :: 0 <= i < |z| ==> !z[i].MessageStart?
    ensures StartsAt(a + z, k)
  {
  }

  lemma FailedStarts(ids: Ids, s: Summary)
    requires Proper(s) && s.said == [] && s.end != Some(Done) && s.late != []
    ensures StartsAt(Render(ids, s), 2)
  {
    var a := Before(ids, s) + End(ids, s) + [MessageStart(ids.messageId)];
    assert |Before(ids, s)| == 1 == |End(ids, s)|;
    assert StartsAt(a, 2);
    Assoc(Before(ids, s) + End(ids, s), [MessageStart(ids.messageId)], Deltas(ids, s.late));
    StartsBefore(a, Deltas(ids, s.late), 2);
  }

  lemma NothingStarts(ids: Ids, s: Summary)
    requires Proper(s) && s.said == [] && s.end != Some(Done) && s.late == []
    ensures MessageOrder(Render(ids, s))
  {
    assert |Render(ids, s)| <= 2;
  }

  // ----- what the client is told -----

  /** The bytes of a literal of ASCII characters. */
  function Literal(s: string): seq<Byte> {
    seq(|s|, i requires 0 <= i < |s| => if s[i] as int < 128 then s[i] as int as Byte else 63)
  }

  function Joined(texts: seq<string>): string {
    if texts == [] then "" else Joined(texts[..|texts| - 1]) + texts[|texts| - 1]
  }

  function DeltaTexts(choices: seq<Choice>): seq<string> {
    seq(|choices|, i requires 0 <= i < |choices| => choices[i].delta)
  }

  function MessageTexts(choices: seq<Choice>): seq<string> {
    seq(|choices|, i requires 0 <= i < |choices| => choices[i].message)
  }

  /** The payload of a line that carries one. */
  function Payload(codec: Codec, line: seq<Byte>): Option<seq<Byte>> {
    if Literal("data:") <= codec.trim(line) then Some(codec.trim(codec.trim(line)[5..])) else None
  }

  function Payloads(codec: Codec, lines: seq<seq<Byte>>): seq<seq<Byte>> {
    if lines == [] then []
    else
      var payload := Payload(codec, lines[|lines| - 1]);
      Payloads(codec, lines[..|lines| - 1]) + if payload.Some? then [payload.value] else []
  }

  /** All payloads of a stream; the bytes after the last newline count as a line here. */
  function AllPayloads(codec: Codec, data: seq<Byte>): seq<seq<Byte>> {
    Payloads(codec, Lines(data) + [Rest(data)])
  }

  /** The chunk in a payload, if there is one. */
  function ChunkIn(codec: Codec, payload: seq<Byte>): Option<Chunk> {
    if payload == [] || payload == Literal("[DONE]") then None else codec.decode(payload)
  }

  /** The response that stands alone behind the last newline. */
  function ResponseIn(codec: Codec, data: seq<Byte>): Option<Chunk> {
    var rest := codec.trim(Rest(data));
    if rest == [] || Literal("data:") <= rest then None else codec.decode(rest)
  }

  predicate Fails(chunk: Option<Chunk>) { chunk.Some? && chunk.value.error.Some? }

  predicate Ends(codec: Codec, payload: seq<Byte>) {
    payload == Literal("[DONE]") || Fails(ChunkIn(codec, payload))
  }

  /** The first payload that ends the run, or the number of payloads. */
  function EndAt(codec: Codec, payloads: seq<seq<Byte>>): (n: nat)
    ensures n <= |payloads|
    ensures forall i :: 0 <= i < n ==> !Ends(codec, payloads[i])
    ensures n < |payloads| ==> Ends(codec, payloads[n])
  {
    if payloads == [] then 0
    else
      var k := |payloads| - 1;
      var n := EndAt(codec, payloads[..k]);
      if n < k || Ends(codec, payloads[k]) then n else k + 1
  }

  /** The text of the deltas of some payloads. */
  function DeltaText(codec: Codec, payloads: seq<seq<Byte>>): string {
    if payloads == [] then ""
    else
      var k := |payloads| - 1;
      var chunk := ChunkIn(codec, payloads[k]);
      DeltaText(codec, payloads[..k]) + if chunk.Some? then Joined(DeltaTexts(chunk.value.choices)) else ""
  }

  /** The last usage that some payloads report. */
  function LastUsage(codec: Codec, payloads: seq<seq<Byte>>): Option<Usage> {
    if payloads == [] then None
    else
      var k := |payloads| - 1;
      var chunk := ChunkIn(codec, payloads[k]);
      if chunk.Some? && chunk.value.usage.Some? then chunk.value.usage else LastUsage(codec, payloads[..k])
  }

  /** What the client should read: the deltas before the end of the run, and the messages of a
      response that stands alone. */
  function TextTold(codec: Codec, data: seq<Byte>): string {
    var ps := AllPayloads(codec, data);
    var response := ResponseIn(codec, data);
    DeltaText(codec, ps[..EndAt(codec, ps)]) +
    if EndAt(codec, ps) == |ps| && response.Some? && !Fails(response) then Joined(MessageTexts(response.value.choices)) else ""
  }

  function UsageTold(codec: Codec, data: seq<Byte>): Option<Usage> {
    var ps := AllPayloads(codec, data);
    var response := ResponseIn(codec, data);
    if EndAt(codec, ps) == |ps| && response.Some? && !Fails(response) && response.value.usage.Some? then response.value.usage
    else LastUsage(codec, ps[..EndAt(codec, ps)])
  }

  /** The error that ends the run, if one does: of a payload, of the response, or the status. */
  function ErrorTold(codec: Codec, data: seq<Byte>, status: int): Option<ErrorBody> {
    var ps := AllPayloads(codec, data);
    var n, response := EndAt(codec, ps), ResponseIn(codec, data);
    if n < |ps| then
      if Fails(ChunkIn(codec, ps[n])) then ChunkIn(codec, ps[n]).value.error else None
    else if Fails(response) then response.value.error
    else if status >= 400 then Some(ErrorBody(codec.statusText(status), codec.statusCode(status)))
    else None
  }

  /** The texts of the content events. */
  function TextsOf(events: seq<Event>): seq<string> {
    if events == [] then []
    else
      var last := events[|events| - 1];
      TextsOf(events[..|events| - 1]) + if last.MessageContent? then [last.delta] else []
  }

  /** An end that says this: an error with its message and code, or a success with the tokens of
      the last usage. */
  predicate Says(ids: Ids, end: Event, error: Option<ErrorBody>, usage: Option<Usage>) {
    if error.Some? then
      && end.RunError? && end.message == error.value.message
      && end.code == if error.value.code in ["", "<nil>"] then None else Some(error.value.code)
    else
      && end.RunFinished? && end.threadId == ids.threadId && end.runId == ids.runId
      && end.messageId == ids.messageId && end.model == ids.model
      && end.inputTokens == (if usage.Some? then usage.value.prompt else None)
      && end.outputTokens == (if usage.Some? then usage.value.completion else None)
  }

  /** The end that the client is told of. */
  predicate EndTold(codec: Codec, ids: Ids, data: seq<Byte>, status: int, end: Event) {
    Says(ids, end, ErrorTold(codec, data, status), UsageTold(codec, data))
  }

  /** Every event names the run and the message it belongs to. */
  ghost predicate Addressed(ids: Ids, e: Event) {
    match e
    case RunStarted(threadId, runId) => threadId == ids.threadId && runId == ids.runId
    case MessageStart(messageId) => messageId == ids.messageId
    case MessageContent(messageId, _) => messageId == ids.messageId
    case MessageEnd(messageId) => messageId == ids.messageId
    case RunFinished(threadId, runId, messageId, model, _, _) =>
      threadId == ids.threadId && runId == ids.runId && messageId == ids.messageId && model == ids.model
    case RunError(_, _) => true
  }

  lemma Literals()
    ensures Literal("data:") == DATA && Literal("[DONE]") == DONE && BAD_REQUEST == 400 && STATUS_OK == 200
  {
  }

  lemma JoinedSnoc(texts: seq<string>, text: string)
    ensures Joined(texts + [text]) == Joined(texts) + text
  {
    assert (texts + [text])[..|texts|] == texts;
  }

  lemma {:induction false} JoinedConcat(a: seq<string>, b: seq<string>)
    ensures Joined(a + b) == Joined(a) + Joined(b)
  {
    if b == [] {
      EmptyConcat(a);
    } else {
      var k := |b| - 1;
      assert a + b == (a + b[..k]) + [b[k]];
      JoinedSnoc(a + b[..k], b[k]);
      JoinedConcat(a, b[..k]);
      Assoc(Joined(a), Joined(b[..k]), b[k]);
    }
  }

  /** The texts that a chunk says are its deltas, all of them and in order; the empty ones are left out. */
  lemma {:induction false} DeltasSaid(choices: seq<Choice>)
    ensures Joined(Contents(DeltaTokens(choices))) == Joined(DeltaTexts(choices))
    ensures forall t :: t in DeltaTokens(choices) ==> t.Content? && t.text != ""
  {
    if choices != [] {
      var k := |choices| - 1;
      DeltasSaid(choices[..k]);
      assert DeltaTexts(choices)[..k] == DeltaTexts(choices[..k]);
      var before, text := DeltaTokens(choices[..k]), choices[k].delta;
      if text != "" {
        ContentsSnoc(before, Content(text));
        JoinedSnoc(Contents(before), text);
      } else {
        EmptyConcat(before);
        EmptyConcat(Joined(DeltaTexts(choices[..k])));
      }
    }
  }

  lemma {:induction false} MessagesSaid(choices: seq<Choice>)
    ensures Contents(MessageTokens(choices)) == MessageTexts(choices)
    ensures forall t :: t in MessageTokens(choices) ==> t.Content?
  {
    if choices != [] {
      var k := |choices| - 1;
      MessagesSaid(choices[..k]);
      ContentsSnoc(MessageTokens(choices[..k]), Content(choices[k].message));
      assert MessageTexts(choices) == MessageTexts(choices[..k]) + [choices[k].message];
    }
  }

  lemma ContentsSnoc(toks: seq<Token>, t: Token)
    ensures Contents(toks + [t]) == Contents(toks) + if t.Content? then [t.text] else []
  {
    assert (toks + [t])[..|toks|] == toks;
  }

  /** Texts are taken over one by one while the run goes on. */
  lemma {:induction false} GatherTexts(s: Summary, toks: seq<Token>)
    requires s.end.None? && forall t :: t in toks ==> t.Content?
    ensures Gather(s, toks) == s.(said := s.said + Contents(toks))
  {
    if toks == [] {
      EmptyConcat(s.said);
    } else {
      var k := |toks| - 1;
      assert toks == toks[..k] + [toks[k]] && toks[k] in toks;
      assert forall t :: t in toks[..k] ==> t in toks;
      GatherTexts(s, toks[..k]);
      ContentsSnoc(toks[..k], toks[k]);
      Assoc(s.said, Contents(toks[..k]), [toks[k].text]);
    }
  }

  lemma GatherUsage(s: Summary, usage: Option<Usage>)
    requires s.end.None?
    ensures Gather(s, UsageTokens(usage)) == s.(usage := if usage.Some? then usage else s.usage)
  {
    if usage.Some? {
      assert [Counted(usage.value)][..0] == [];
    }
  }

  lemma GatherOne(s: Summary, t: Token)
    ensures Gather(s, [t]) == Note(s, t)
  {
    assert [t][..0] == [];
  }

  /** The token of a payload that ends the run. */
  ghost function EndToken(codec: Codec, payload: seq<Byte>): Token
    requires Ends(codec, payload)
  {
    if payload == Literal("[DONE]") then Done
    else var error := ChunkIn(codec, payload).value.error.value; Failed(error.message, error.code)
  }

  /** A summary that says what the payloads say before the first end, and notes that end. */
  ghost predicate Heard(codec: Codec, payloads: seq<seq<Byte>>, s: Summary) {
    var n := EndAt(codec, payloads);
    && Joined(s.said) == DeltaText(codec, payloads[..n])
    && s.usage == LastUsage(codec, payloads[..n])
    && s.end == if n < |payloads| then Some(EndToken(codec, payloads[n])) else None
  }

  lemma EndAtSnoc(codec: Codec, payloads: seq<seq<Byte>>, payload: seq<Byte>)
    ensures EndAt(codec, payloads + [payload])
         == if EndAt(codec, payloads) < |payloads| || Ends(codec, payload) then EndAt(codec, payloads) else |payloads| + 1
  {
    assert (payloads + [payload])[..|payloads|] == payloads;
  }

  lemma TextSnoc(codec: Codec, payloads: seq<seq<Byte>>, payload: seq<Byte>)
    ensures DeltaText(codec, payloads + [payload]) == DeltaText(codec, payloads)
      + (if ChunkIn(codec, payload).Some? then Joined(DeltaTexts(ChunkIn(codec, payload).value.choices)) else "")
    ensures LastUsage(codec, payloads + [payload])
         == if ChunkIn(codec, payload).Some? && ChunkIn(codec, payload).value.usage.Some?
            then ChunkIn(codec, payload).value.usage else LastUsage(codec, payloads)
  {
    assert (payloads + [payload])[..|payloads|] == payloads;
  }

  /** What one payload adds while the run goes on. */
  lemma PayloadHeard(codec: Codec, s: Summary, payload: seq<Byte>)
    requires s.end.None?
    ensures var chunk, g := ChunkIn(codec, payload), Gather(s, DataTokens(codec, payload));
            if Ends(codec, payload) then g == s.(end := Some(EndToken(codec, payload)))
            else
              && g.end.None?
              && Joined(g.said) == Joined(s.said) + (if chunk.Some? then Joined(DeltaTexts(chunk.value.choices)) else "")
              && g.usage == if chunk.Some? && chunk.value.usage.Some? then chunk.value.usage else s.usage
  {
    Literals();
    if Ends(codec, payload) {
      GatherOne(s, EndToken(codec, payload));
    } else if ChunkIn(codec, payload).Some? {
      var chunk := ChunkIn(codec, payload).value;
      var t := s.(usage := if chunk.usage.Some? then chunk.usage else s.usage);
      GatherConcat(s, UsageTokens(chunk.usage), DeltaTokens(chunk.choices));
      GatherUsage(s, chunk.usage);
      DeltasSaid(chunk.choices);
      GatherTexts(t, DeltaTokens(chunk.choices));
      JoinedConcat(s.said, Contents(DeltaTokens(chunk.choices)));
    } else {
      EmptyConcat(Joined(s.said));
    }
  }

  lemma HeardSnoc(codec: Codec, payloads: seq<seq<Byte>>, s: Summary, payload: seq<Byte>)
    requires Heard(codec, payloads, s)
    ensures Heard(codec, payloads + [payload], Gather(s, DataTokens(codec, payload)))
  {
    var n := EndAt(codec, payloads);
    EndAtSnoc(codec, payloads, payload);
    if n < |payloads| {
      GatherEnded(s, DataTokens(codec, payload));
      assert (payloads + [payload])[..n] == payloads[..n];
    } else {
      PayloadHeard(codec, s, payload);
      assert payloads[..n] == payloads && (payloads + [payload])[..n] == payloads;
      assert (payloads + [payload])[..n + 1] == payloads + [payload];
      TextSnoc(codec, payloads, payload);
    }
  }

  lemma LineHeard(codec: Codec, payloads: seq<seq<Byte>>, s: Summary, line: seq<Byte>)
    requires Heard(codec, payloads, s)
    ensures var payload := Payload(codec, line);
            Heard(codec, payloads + (if payload.Some? then [payload.value] else []), Gather(s, LineTokens(codec, line)))
  {
    Literals();
    var payload := Payload(codec, line);
    if payload.Some? {
      HeardSnoc(codec, payloads, s, payload.value);
    } else {
      EmptyConcat(payloads);
    }
  }

  lemma PayloadsSnoc(codec: Codec, lines: seq<seq<Byte>>, line: seq<Byte>)
    ensures Payloads(codec, lines + [line])
         == Payloads(codec, lines) + if Payload(codec, line).Some? then [Payload(codec, line).value] else []
  {
    assert (lines + [line])[..|lines|] == lines;
  }

  lemma {:induction false} LinesHeard(codec: Codec, lines: seq<seq<Byte>>)
    ensures Heard(codec, Payloads(codec, lines), Summarize(LinesTokens(codec, lines)))
  {
    if lines == [] {
      NothingHeard(codec);
    } else {
      var k := |lines| - 1;
      LinesHeard(codec, lines[..k]);
      assert lines == lines[..k] + [lines[k]];
      PayloadsSnoc(codec, lines[..k], lines[k]);
      LinesTokensConcat(codec, lines[..k], [lines[k]]);
      EmptyConcat(LineTokens(codec, lines[k]));
      GatherConcat(EMPTY, LinesTokens(codec, lines[..k]), LineTokens(codec, lines[k]));
      LineHeard(codec, Payloads(codec, lines[..k]), Summarize(LinesTokens(codec, lines[..k])), lines[k]);
    }
  }

  lemma NothingHeard(codec: Codec)
    ensures Heard(codec, [], EMPTY)
  {
  }

  /** The stream up to its own end; a response that stands alone is still to come. */
  ghost function BeforeResponse(codec: Codec, data: seq<Byte>): Summary {
    Gather(Summarize(LinesTokens(codec, Lines(data))), LineTokens(codec, Rest(data)))
  }

  lemma StreamHeard(codec: Codec, data: seq<Byte>)
    ensures Heard(codec, AllPayloads(codec, data), BeforeResponse(codec, data))
  {
    LinesHeard(codec, Lines(data));
    PayloadsSnoc(codec, Lines(data), Rest(data));
    LineHeard(codec, Payloads(codec, Lines(data)), Summarize(LinesTokens(codec, Lines(data))), Rest(data));
  }

  /** What a response that stands alone adds to a run without an end. */
  lemma ResponseHeard(codec: Codec, data: seq<Byte>, s: Summary)
    requires s.end.None? && ResponseIn(codec, data).Some?
    ensures var response, g := ResponseIn(codec, data).value, Gather(s, TailTokens(codec, Rest(data)));
            if response.error.Some?
            then g == s.(end := Some(Failed(response.error.value.message, response.error.value.code)))
            else g == s.(said := s.said + MessageTexts(response.choices),
                         usage := if response.usage.Some? then response.usage else s.usage)
  {
    Literals();
    var response := ResponseIn(codec, data).value;
    if response.error.Some? {
      GatherOne(s, Failed(response.error.value.message, response.error.value.code));
    } else {
      GatherConcat(s, UsageTokens(response.usage), MessageTokens(response.choices));
      GatherUsage(s, response.usage);
      MessagesSaid(response.choices);
      GatherTexts(s.(usage := if response.usage.Some? then response.usage else s.usage), MessageTokens(response.choices));
    }
  }

  lemma TailIsLine(codec: Codec, data: seq<Byte>)
    requires ResponseIn(codec, data).None?
    ensures TailTokens(codec, Rest(data)) == LineTokens(codec, Rest(data))
  {
    Literals();
  }

  lemma AloneIsNoLine(codec: Codec, data: seq<Byte>)
    requires ResponseIn(codec, data).Some?
    ensures LineTokens(codec, Rest(data)) == []
  {
    Literals();
  }

  /** The whole stream with its status, told as texts, usage and end. */
  ghost predicate Told(codec: Codec, data: seq<Byte>, status: int, s: Summary) {
    && Joined(s.said) == TextTold(codec, data) && s.usage == UsageTold(codec, data)
    && s.end == Some(EndOf(ErrorTold(codec, data, status)))
  }

  function EndOf(error: Option<ErrorBody>): Token {
    if error.Some? then Failed(error.value.message, error.value.code) else Done
  }

  lemma ToldEnded(codec: Codec, data: seq<Byte>, status: int, s: Summary)
    requires Heard(codec, AllPayloads(codec, data), s) && s.end.Some?
    ensures Told(codec, data, status, Prompt(s))
  {
    var ps := AllPayloads(codec, data);
    EmptyConcat(DeltaText(codec, ps[..EndAt(codec, ps)]));
  }

  lemma NoResponse(codec: Codec, data: seq<Byte>, status: int)
    requires ResponseIn(codec, data).None? && EndAt(codec, AllPayloads(codec, data)) == |AllPayloads(codec, data)|
    ensures TextTold(codec, data) == DeltaText(codec, AllPayloads(codec, data)[..|AllPayloads(codec, data)|])
    ensures UsageTold(codec, data) == LastUsage(codec, AllPayloads(codec, data)[..|AllPayloads(codec, data)|])
    ensures EndOf(ErrorTold(codec, data, status)) == StatusToken(codec, status)
  {
    EmptyConcat(DeltaText(codec, AllPayloads(codec, data)[..|AllPayloads(codec, data)|]));
  }

  lemma ToldByStatus(codec: Codec, data: seq<Byte>, status: int, s: Summary)
    requires Heard(codec, AllPayloads(codec, data), s) && s.end.None? && ResponseIn(codec, data).None?
    ensures Told(codec, data, status, Prompt(Note(s, StatusToken(codec, status))))
  {
    NoResponse(codec, data, status);
  }

  lemma WithResponse(codec: Codec, data: seq<Byte>, status: int)
    requires ResponseIn(codec, data).Some? && EndAt(codec, AllPayloads(codec, data)) == |AllPayloads(codec, data)|
    ensures var response := ResponseIn(codec, data).value;
            var ps := AllPayloads(codec, data);
            var text, usage := DeltaText(codec, ps[..|ps|]), LastUsage(codec, ps[..|ps|]);
            if response.error.Some? then
              && TextTold(codec, data) == text && UsageTold(codec, data) == usage
              && ErrorTold(codec, data, status) == response.error
            else
              && TextTold(codec, data) == text + Joined(MessageTexts(response.choices))
              && UsageTold(codec, data) == (if response.usage.Some? then response.usage else usage)
              && EndOf(ErrorTold(codec, data, status)) == StatusToken(codec, status)
  {
    EmptyConcat(DeltaText(codec, AllPayloads(codec, data)[..|AllPayloads(codec, data)|]));
  }

  lemma ToldSuccess(codec: Codec, data: seq<Byte>, status: int, s: Summary, g: Summary)
    requires Heard(codec, AllPayloads(codec, data), s) && s.end.None?
    requires ResponseIn(codec, data).Some? && ResponseIn(codec, data).value.error.None?
    requires var response := ResponseIn(codec, data).value;
             g == s.(said := s.said + MessageTexts(response.choices), usage := if response.usage.Some? then response.usage else s.usage)
    ensures Told(codec, data, status, Prompt(Note(g, StatusToken(codec, status))))
  {
    WithResponse(codec, data, status);
    JoinedConcat(s.said, MessageTexts(ResponseIn(codec, data).value.choices));
  }

  lemma ToldByResponse(codec: Codec, data: seq<Byte>, status: int, s: Summary)
    requires Heard(codec, AllPayloads(codec, data), s) && s.end.None? && ResponseIn(codec, data).Some?
    ensures var g := Gather(s, TailTokens(codec, Rest(data))); Told(codec, data, status, Prompt(Note(g, StatusToken(codec, status))))
  {
    ResponseHeard(codec, data, s);
    if ResponseIn(codec, data).value.error.Some? {
      WithResponse(codec, data, status);
    } else {
      ToldSuccess(codec, data, status, s, Gather(s, TailTokens(codec, Rest(data))));
    }
  }

  lemma SummaryTold(codec: Codec, data: seq<Byte>, status: int)
    ensures Told(codec, data, status, Prompt(WholeSummary(codec, data, status)))
  {
    var lines, tail := Summarize(LinesTokens(codec, Lines(data))), TailTokens(codec, Rest(data));
    StreamHeard(codec, data);
    WholeSummaryParts(codec, data, status);
    if ResponseIn(codec, data).None? {
      TailIsLine(codec, data);
      if BeforeResponse(codec, data).end.Some? {
        ToldEnded(codec, data, status, BeforeResponse(codec, data));
      } else {
        ToldByStatus(codec, data, status, BeforeResponse(codec, data));
      }
    } else {
      AloneIsNoLine(codec, data);
      if lines.end.Some? {
        GatherEnded(lines, tail);
        assert BeforeResponse(codec, data) == lines;
        ToldEnded(codec, data, status, lines);
      } else {
        ToldByResponse(codec, data, status, lines);
      }
    }
  }

  lemma {:induction false} TextsConcat(a: seq<Event>, b: seq<Event>)
    ensures TextsOf(a + b) == TextsOf(a) + TextsOf(b)
  {
    if b == [] {
      EmptyConcat(a);
      EmptyConcat(TextsOf(a));
    } else {
      var k := |b| - 1;
      assert (a + b)[..|a| + k] == a + b[..k];
      TextsConcat(a, b[..k]);
    }
  }

  lemma {:induction false} TextsOfDeltas(ids: Ids, texts: seq<string>)
    ensures TextsOf(Deltas(ids, texts)) == texts
  {
    if texts != [] {
      var k := |texts| - 1;
      TextsOfDeltas(ids, texts[..k]);
      assert Deltas(ids, texts)[..k] == Deltas(ids, texts[..k]);
      assert texts == texts[..k] + [texts[k]];
    }
  }

  lemma {:induction false} NoTexts(events: seq<Event>)
    requires forall e :: e in events ==> !e.MessageContent?
    ensures TextsOf(events) == []
  {
    if events != [] {
      assert forall e :: e in events[..|events| - 1] ==> e in events;
      NoTexts(events[..|events| - 1]);
    }
  }

  lemma OpenedTexts(ids: Ids, texts: seq<string>)
    ensures TextsOf(Opened(ids, texts)) == texts
  {
    TextsConcat([Started(ids), MessageStart(ids.messageId)], Deltas(ids, texts));
    NoTexts([Started(ids), MessageStart(ids.messageId)]);
    TextsOfDeltas(ids, texts);
    EmptyConcat(texts);
  }

  /** The content events of a finished run are its texts. */
  lemma RenderedTexts(ids: Ids, s: Summary)
    requires s.end.Some? && s.late == []
    ensures TextsOf(Render(ids, s)) == s.said
  {
    var a, e := Before(ids, s), End(ids, s);
    EmptyConcat(a + e);
    TextsConcat(a, e);
    NoTexts(e);
    EmptyConcat(TextsOf(a));
    if s.said != [] || s.end == Some(Done) {
      OpenedTexts(ids, s.said);
    } else {
      NoTexts(a);
    }
  }

  lemma RenderedAddresses(ids: Ids, s: Summary)
    ensures forall i :: 0 <= i < |Render(ids, s)| ==> Addressed(ids, Render(ids, s)[i])
  {
    assert forall e :: e in Before(ids, s) ==> Addressed(ids, e);
    assert forall e :: e in End(ids, s) ==> Addressed(ids, e);
    assert forall e :: e in Late(ids, s) ==> Addressed(ids, e);
    assert forall i :: 0 <= i < |Render(ids, s)| ==> Render(ids, s)[i] in Before(ids, s) + End(ids, s) + Late(ids, s);
  }

  lemma RenderedLast(ids: Ids, s: Summary)
    requires s.end.Some? && s.late == []
    ensures var r, e := Render(ids, s), End(ids, s); r != [] && e != [] && r[|r| - 1] == e[|e| - 1]
  {
    EmptyConcat(Before(ids, s) + End(ids, s));
  }

  lemma RenderedEnd(ids: Ids, s: Summary, error: Option<ErrorBody>)
    requires s.end == Some(EndOf(error)) && s.late == []
    ensures var r := Render(ids, s); r != [] && Says(ids, r[|r| - 1], error, s.usage)
  {
    RenderedLast(ids, s);
  }

  /** The client reads exactly the deltas of the decoded payloads before the end of the run and the
      messages of a response that stands alone; the last event says how the run ended. */
  lemma ExpectedTold(codec: Codec, ids: Ids, data: seq<Byte>, status: int)
    ensures var events := Expected(codec, ids, data, status);
            && Joined(TextsOf(events)) == TextTold(codec, data)
            && events != [] && EndTold(codec, ids, data, status, events[|events| - 1])
            && forall i :: 0 <= i < |events| ==> Addressed(ids, events[i])
  {
    var s := Prompt(WholeSummary(codec, data, status));
    SummaryTold(codec, data, status);
    RenderedTexts(ids, s);
    RenderedEnd(ids, s, ErrorTold(codec, data, status));
    RenderedAddresses(ids, s);
  }

  /** Without a status the upstream counts as successful. */
  lemma {:induction false} DefaultStatus(calls: seq<Call>)
    requires forall c :: c in calls ==> !c.WriteHeader?
    ensures StatusOf(calls) == 200
  {
    if calls != [] {
      assert forall c :: c in calls[..|calls| - 1] ==> c in calls;
      DefaultStatus(calls[..|calls| - 1]);
    }
  }

  // ----- one token at a time -----

  lemma RenderLateContent(ids: Ids, s: Summary, text: string)
    requires s.end.Some?
    ensures Render(ids, Note(s, Content(text))) == Render(ids, s)
      + (if s.said != [] || s.end == Some(Done) || s.late != [] then [] else [MessageStart(ids.messageId)])
      + [MessageContent(ids.messageId, text)]
  {
    var start := if s.said != [] || s.end == Some(Done) || s.late != [] then [] else [MessageStart(ids.messageId)];
    var said := [MessageContent(ids.messageId, text)];
    assert Deltas(ids, s.late + [text]) == Deltas(ids, s.late) + said;
    assert Late(ids, Note(s, Content(text))) == Late(ids, s) + start + said;
    Regroup(Before(ids, s) + End(ids, s), Late(ids, s), start, said);
  }

  lemma RenderContent(ids: Ids, s: Summary, text: string)
    requires s.end.None? && s.late == []
    ensures Render(ids, Note(s, Content(text))) == Render(ids, s)
      + (if s.said != [] then [] else [Started(ids)])
      + (if s.said != [] then [] else [MessageStart(ids.messageId)])
      + [MessageContent(ids.messageId, text)]
  {
    assert Deltas(ids, s.said + [text]) == Deltas(ids, s.said) + [MessageContent(ids.messageId, text)];
  }

  lemma RenderNextContent(ids: Ids, s: Summary, text: string, started: bool, messageStarted: bool)
    requires Proper(s)
    requires started == (s.said != [] || s.end.Some?)
    requires messageStarted == (s.said != [] || s.end == Some(Done) || s.late != [])
    ensures Render(ids, Note(s, Content(text))) == Render(ids, s)
      + (if started then [] else [Started(ids)])
      + (if messageStarted then [] else [MessageStart(ids.messageId)])
      + [MessageContent(ids.messageId, text)]
  {
    if s.end.Some? {
      RenderLateContent(ids, s, text);
      EmptyConcat(Render(ids, s));
    } else {
      RenderContent(ids, s, text);
    }
  }

  lemma RenderDone(ids: Ids, s: Summary)
    requires s.end.None? && s.late == []
    ensures Render(ids, Note(s, Done)) == Render(ids, s)
      + (if s.said != [] then [] else [Started(ids)])
      + (if s.said != [] then [] else [MessageStart(ids.messageId)])
      + [MessageEnd(ids.messageId)] + Closing(ids, s.usage)[1..]
  {
  }

  lemma RenderFailed(ids: Ids, s: Summary, message: string, code: string)
    requires s.end.None? && s.late == []
    ensures Render(ids, Note(s, Failed(message, code))) == Render(ids, s)
      + (if s.said != [] then [] else [Started(ids)])
      + [ErrorEvent(message, code)]
  {
  }

  // ----- the writer -----

  /** The response writer. `sum` summarizes the tokens acted on; `Valid` ties every flag and the
      emitted events to it. */
  class EventWriter {
    const codec: Codec
    const ids: Ids
    var usage: Option<Usage>
    var upstreamStatus: int
    var buffer: seq<Byte>
    var started: bool
    var messageStarted: bool
    var finished: bool
    var out: seq<Event>
    ghost var sum: Summary

    ghost predicate Valid()
      reads `usage, `started, `messageStarted, `finished, `out, `sum
    {
      && Proper(sum)
      && finished == sum.end.Some?
      && started == (sum.said != [] || sum.end.Some?)
      && messageStarted == (sum.said != [] || sum.end == Some(Done) || sum.late != [])
      && (!finished ==> usage == sum.usage)
      && out == Render(ids, sum)
    }

    ghost function Abs(): State
      reads this
    {
      State(buffer, sum, upstreamStatus)
    }

    constructor (codec: Codec, ids: Ids)
      ensures Valid() && this.codec == codec && this.ids == ids
      ensures Abs() == Run(codec, [])
    {
      this.codec, this.ids := codec, ids;
      usage, upstreamStatus, buffer := None, STATUS_OK, [];
      started, messageStarted, finished := false, false, false;
      out, sum := [], EMPTY;
    }

    method BeginRun()
      modifies `started, `out
      ensures started
      ensures out == old(out) + if old(started) then [] else [Started(ids)]
    {
      if started {
        return;
      }
      started := true;
      out := out + [RunStarted(ids.threadId, ids.runId)];
    }

    method BeginMessage()
      modifies `started, `messageStarted, `out
      ensures started && messageStarted
      ensures out == old(out) + (if old(started) then [] else [Started(ids)])
                              + (if old(messageStarted) then [] else [MessageStart(ids.messageId)])
    {
      BeginRun();
      if messageStarted {
        return;
      }
      messageStarted := true;
      out := out + [MessageStart(ids.messageId)];
    }

    method WriteContent(content: string)
      requires Valid()
      modifies `started, `messageStarted, `out, `sum
      ensures Valid() && sum == Note(old(sum), Content(content))
    {
      RenderNextContent(ids, sum, content, started, messageStarted);
      BeginMessage();
      out := out + [MessageContent(ids.messageId, content)];
      sum := Note(sum, Content(content));
    }

    method FinishSuccess()
      requires Valid()
      modifies `started, `messageStarted, `finished, `out, `sum
      ensures Valid() && finished && sum == Note(old(sum), Done)
    {
      if finished {
        sum := Note(sum, Done);
        return;
      }
      RenderDone(ids, sum);
      BeginMessage();
      out := out + [MessageEnd(ids.messageId)];
      var input, output := None, None;
      if usage.Some? {
        if usage.value.prompt.Some? { input := usage.value.prompt; }
        if usage.value.completion.Some? { output := usage.value.completion; }
      }
      out := out + [RunFinished(ids.threadId, ids.runId, ids.messageId, ids.model, input, output)];
      finished := true;
      sum := Note(sum, Done);
    }

    method FinishError(message: string, code: string)
      requires Valid()
      modifies `started, `finished, `out, `sum
      ensures Valid() && finished && sum == Note(old(sum), Failed(message, code))
    {
      if finished {
        sum := Note(sum, Failed(message, code));
        return;
      }
      RenderFailed(ids, sum, message, code);
      BeginRun();
      var shown := None;
      if code != "" && code != "<nil>" {
        shown := Some(code);
      }
      out := out + [RunError(message, shown)];
      finished := true;
      sum := Note(sum, Failed(message, code));
    }

    method NoteUsage(reported: Option<Usage>)
      requires Valid()
      modifies `usage, `sum
      ensures Valid() && sum == Gather(old(sum), UsageTokens(reported))
    {
      if reported.Some? {
        usage := reported;
        sum := Note(sum, Counted(reported.value));
      }
    }

    method WriteDeltas(choices: seq<Choice>)
      requires Valid()
      modifies `started, `messageStarted, `out, `sum
      ensures Valid() && sum == Gather(old(sum), DeltaTokens(choices))
    {
      for i := 0 to |choices|
        invariant Valid()
        invariant sum == Gather(old(sum), DeltaTokens(choices[..i]))
      {
        assert choices[..i + 1][..i] == choices[..i];
        EmptyConcat(DeltaTokens(choices[..i]));
        var delta := choices[i].delta;
        if delta != "" {
          GatherSnoc(old(sum), DeltaTokens(choices[..i]), Content(delta));
          WriteContent(delta);
        }
      }
      assert choices[..|choices|] == choices;
    }

    method WriteMessages(choices: seq<Choice>)
      requires Valid()
      modifies `started, `messageStarted, `out, `sum
      ensures Valid() && sum == Gather(old(sum), MessageTokens(choices))
    {
      for i := 0 to |choices|
        invariant Valid()
        invariant sum == Gather(old(sum), MessageTokens(choices[..i]))
      {
        assert choices[..i + 1][..i] == choices[..i];
        GatherSnoc(old(sum), MessageTokens(choices[..i]), Content(choices[i].message));
        WriteContent(choices[i].message);
      }
      assert choices[..|choices|] == choices;
    }

    method ConsumeData(data: seq<Byte>)
      requires Valid()
      modifies `usage, `started, `messageStarted, `finished, `out, `sum
      ensures Valid() && sum == Gather(old(sum), DataTokens(codec, data))
    {
      if data == DONE {
        FinishSuccess();
      } else if data != [] && codec.decode(data).Some? {
        var chunk := codec.decode(data).value;
        if chunk.error.Some? {
          FinishError(chunk.error.value.message, chunk.error.value.code);
        } else {
          GatherConcat(sum, UsageTokens(chunk.usage), DeltaTokens(chunk.choices));
          NoteUsage(chunk.usage);
          WriteDeltas(chunk.choices);
        }
      }
    }

    method ConsumeLine(line: seq<Byte>)
      requires Valid()
      modifies `usage, `started, `messageStarted, `finished, `out, `sum
      ensures Valid() && sum == Gather(old(sum), LineTokens(codec, line))
    {
      var trimmed := codec.trim(line);
      if !(DATA <= trimmed) {
        return;
      }
      ConsumeData(codec.trim(trimmed[|DATA|..]));
    }

    /** Takes every complete line out of the buffer, also after the run has ended. */
    method ConsumeLines()
      requires Valid()
      modifies `usage, `started, `messageStarted, `finished, `buffer, `out, `sum
      ensures Valid() && Abs() == Drain(codec, old(Abs()))
    {
      while true
        invariant Valid()
        invariant Drain(codec, Abs()) == Drain(codec, old(Abs()))
        decreases |buffer|
      {
        var next := NextLine(buffer);
        if next.None? {
          DrainNothing(codec, Abs());
          return;
        }
        DrainLine(codec, next.value.0, next.value.1, sum, upstreamStatus);
        buffer := next.value.1;
        ConsumeLine(next.value.0);
      }
    }

    method Write(data: seq<Byte>)
      requires Valid()
      modifies this
      ensures Valid() && Abs() == Step(codec, old(Abs()), Call.Write(data))
    {
      if finished {
        return;
      }
      buffer := buffer + data;
      if upstreamStatus >= BAD_REQUEST {
        return;
      }
      ConsumeLines();
    }

    method Flush()
      requires Valid()
      modifies this
      ensures Valid() && Abs() == Step(codec, old(Abs()), Call.Flush)
    {
      ConsumeLines();
    }

    method WriteHeader(code: int)
      requires Valid()
      modifies `upstreamStatus
      ensures Valid() && Abs() == Step(codec, old(Abs()), Call.WriteHeader(code))
    {
      upstreamStatus := code;
    }

    method ConsumeTail()
      requires Valid()
      modifies `usage, `started, `messageStarted, `finished, `out, `sum
      ensures Valid() && sum == Gather(old(sum), TailTokens(codec, buffer))
    {
      var remaining := codec.trim(buffer);
      if remaining == [] {
        return;
      }
      if DATA <= remaining {
        ConsumeData(codec.trim(remaining[|DATA|..]));
        return;
      }
      var decoded := codec.decode(remaining);
      if decoded.None? {
        return;
      }
      var response := decoded.value;
      if response.error.Some? {
        FinishError(response.error.value.message, response.error.value.code);
        return;
      }
      GatherConcat(sum, UsageTokens(response.usage), MessageTokens(response.choices));
      NoteUsage(response.usage);
      WriteMessages(response.choices);
    }

    method Finish()
      requires Valid()
      modifies this
      ensures Valid() && finished && sum == Finished(codec, old(Abs()))
    {
      if finished {
        return;
      }
      ConsumeLines();
      ConsumeTail();
      if finished {
        return;
      }
      if upstreamStatus >= BAD_REQUEST {
        FinishError(codec.statusText(upstreamStatus), codec.statusCode(upstreamStatus));
        return;
      }
      FinishSuccess();
    }
  }

  /** A whole request: any sequence of calls on a fresh writer, then `Finish`. */
  method Serve(codec: Codec, ids: Ids, calls: seq<Call>) returns (events: seq<Event>)
    ensures UpToTerminal(events) == Expected(codec, ids, BytesOf(calls), StatusOf(calls))
    ensures events == Output(codec, ids, calls)
    ensures RunOrder(events) && MessageOrder(events)
    ensures exists i :: 0 <= i < |events| && events[i].IsTerminal()
    ensures var told := UpToTerminal(events);
            && Joined(TextsOf(told)) == TextTold(codec, BytesOf(calls))
            && told != [] && EndTold(codec, ids, BytesOf(calls), StatusOf(calls), told[|told| - 1])
    ensures forall i :: 0 <= i < |events| ==> Addressed(ids, events[i])
  {
    var w := new EventWriter(codec, ids);
    for i := 0 to |calls|
      invariant w.Valid() && w.codec == codec && w.ids == ids
      invariant w.Abs() == Run(codec, calls[..i])
    {
      assert calls[..i + 1][..i] == calls[..i];
      match calls[i] {
        case Write(data) => w.Write(data);
        case Flush => w.Flush();
        case WriteHeader(code) => w.WriteHeader(code);
      }
    }
    assert calls[..|calls|] == calls;
    w.Finish();
    events := w.out;
    ChunkingIndependence(codec, ids, calls);
    ExpectedTold(codec, ids, BytesOf(calls), StatusOf(calls));
    RenderedAddresses(ids, w.sum);
    RenderRunOrder(ids, w.sum);
    RenderMessageOrder(ids, w.sum);
  }
}
