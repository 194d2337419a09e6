/** The API client (lib/api.ts): the error raised for a non-2xx response, and
    the streaming query, whose body is read chunk by chunk and cut into
    `data: ` frames. The network is replaced by a `Response` value, the
    decoder by chunks that are already text, and `JSON.parse` of a frame by the
    parameter `parse`. */
module Api {
  import opened Types
  import opened JsString

  // ---------------------------------------------------------------------------
  // Errors

  /** `new ApiError(message, statusCode?, detail?)`. */
  datatype ApiError = ApiError(message: string, statusCode: Option<nat>, detail: Field<string>)

  /** A value a promise rejects with or a `throw` raises. `ApiError` is an
      `Error`; `ErrorObject` is any other `Error` (a network failure, say). */
  datatype Thrown = ApiFailure(err: ApiError) | ErrorObject(message: string) | NonError

  const GenericError := "An error occurred"
  const NoBodyError := "No response body from stream"

  /** The body of a streamed response: the decoded chunks `reader.read()`
      yields, in order, and what the read after the last one rejects with
      (`None` when it reports `done`). */
  datatype Body = Body(chunks: seq<string>, failure: Option<Thrown>)

  /** What `fetch` resolved to. `errorJson` is what `response.json()` gives
      for the body of a failed request (`None` when the body is not JSON), and
      `body` is `response.body` (`None` when it is null). */
  datatype Response = Response(
    status: nat,
    statusText: string,
    errorJson: Option<ErrorResponse>,
    body: Option<Body>)

  /** `await fetch(...)`: a response, or the value the request rejected with. */
  datatype Fetched = Fetched(response: Response) | Rejected(reason: Thrown)

  /** `response.ok`: the status is in the 200 range. */
  predicate IsOk(r: Response)
  {
    200 <= r.status <= 299
  }

  /** The error both `handleResponse` and `queryStream` throw for a non-OK
      response: the server's `error` text when the body is JSON and that text
      is truthy, the generic text when it is JSON but the text is falsy, and
      the status line when the body is not JSON. */
  function NonOkError(status: nat, statusText: string, errorJson: Option<ErrorResponse>): ApiError
  {
    match errorJson
    case None => ApiError("HTTP Error " + NatToString(status) + ": " + statusText, Some(status), Undefined)
    case Some(e) =>
      ApiError(if TruthyString(e.error) then e.error.value else GenericError, Some(status), e.detail)
  }

  lemma {:induction false} NonOkErrorChoice(status: nat, statusText: string, errorJson: Option<ErrorResponse>)
    ensures var err := NonOkError(status, statusText, errorJson);
      && err.statusCode == Some(status)
      && (errorJson.None? ==>
            err.message == "HTTP Error " + NatToString(status) + ": " + statusText && err.detail.Undefined?)
      && (errorJson.Some? && TruthyString(errorJson.value.error) ==>
            err.message == errorJson.value.error.value && err.detail == errorJson.value.detail)
      && (errorJson.Some? && !TruthyString(errorJson.value.error) ==>
            err.message == GenericError && err.detail == errorJson.value.detail)
  {
  }

  /** A non-OK response never surfaces an empty message. */
  lemma {:induction false} NonOkErrorNonEmpty(status: nat, statusText: string, errorJson: Option<ErrorResponse>)
    ensures NonOkError(status, statusText, errorJson).message != ""
  {
  }

  /** When the body is not JSON the status number can be read back from the
      message: it is the decimal text between "HTTP Error " and ": ". */
  lemma {:induction false} NonOkStatusReadBack(status: nat, statusText: string)
    ensures var m := NonOkError(status, statusText, None).message;
            var digits := NatToString(status);
      && StartsWith(m, "HTTP Error ")
      && m[11..11 + |digits|] == digits
      && m[11 + |digits|..] == ": " + statusText
      && DecimalValue(m[11..11 + |digits|]) == status
  {
    var digits := NatToString(status);
    var m := "HTTP Error " + digits + ": " + statusText;
    assert m[11..11 + |digits|] == digits;
    assert m[11 + |digits|..] == ": " + statusText;
    NatToStringRoundTrip(status);
  }

  /** `handleResponse<T>(response)`: a non-OK response throws `NonOkError`,
      an OK one yields `response.json()`, given here as `json`. */
  function HandleResponse<T>(r: Response, json: Result<T, Thrown>): (res: Result<T, Thrown>)
    ensures IsOk(r) ==> res == json
    ensures !IsOk(r) ==> res == Failure(ApiFailure(NonOkError(r.status, r.statusText, r.errorJson)))
  {
    if !IsOk(r) then Failure(ApiFailure(NonOkError(r.status, r.statusText, r.errorJson))) else json
  }

  // ---------------------------------------------------------------------------
  // Frames

  const DataPrefix := "data: "

  /** What one complete line delivers: nothing unless it starts with
      `data: `; otherwise the rest of the line, trimmed, is parsed, and an empty
      payload or one that does not parse delivers nothing. */
  function LineEvent(parse: string -> Option<StreamEvent>, line: string): seq<StreamEvent>
  {
    if !StartsWith(line, DataPrefix) then []
    else
      var raw := Trim(line[|DataPrefix|..]);
      if raw == [] then []
      else match parse(raw)
        case Some(ev) => [ev]
        case None => []
  }

  /** The events a sequence of complete lines delivers, in line order. */
  function EventsOf(parse: string -> Option<StreamEvent>, lines: seq<string>): seq<StreamEvent>
  {
    if lines == [] then []
    else EventsOf(parse, lines[..|lines| - 1]) + LineEvent(parse, lines[|lines| - 1])
  }

  /** A line delivers at most one event, and delivers `ev` exactly when it
      starts with `data: ` and its trimmed, non-empty payload parses to `ev`. */
  lemma {:induction false} LineEventIff(parse: string -> Option<StreamEvent>, line: string, ev: StreamEvent)
    ensures |LineEvent(parse, line)| <= 1
    ensures LineEvent(parse, line) == [ev] <==>
      && StartsWith(line, "data: ")
      && Trim(line[6..]) != ""
      && parse(Trim(line[6..])) == Some(ev)
  {
  }

  /** A frame whose payload is padding only (`data:` followed by blanks)
      delivers nothing, whatever the parser would have made of it. */
  lemma {:induction false} BlankFrameDeliversNothing(parse: string -> Option<StreamEvent>, line: string)
    requires StartsWith(line, DataPrefix) && AllTrimmable(line[6..])
    ensures LineEvent(parse, line) == []
  {
    TrimEmptyIff(line[6..]);
  }

  /** Delivery is compositional: the events of two runs of lines are the
      events of the first followed by those of the second. */
  lemma {:induction false} EventsOfAppend(parse: string -> Option<StreamEvent>, a: seq<string>, b: seq<string>)
    ensures EventsOf(parse, a + b) == EventsOf(parse, a) + EventsOf(parse, b)
  {
    if b != [] {
      assert (a + b)[..|a + b| - 1] == a + b[..|b| - 1];
      assert (a + b)[|a + b| - 1] == b[|b| - 1];
      EventsOfAppend(parse, a, b[..|b| - 1]);
    } else {
      assert a + b == a;
    }
  }

  /** A malformed frame is skipped and the lines after it are still
      processed, in order. */
  lemma {:induction false} MalformedFrameSkipped(parse: string -> Option<StreamEvent>, before: seq<string>, line: string, after: seq<string>)
    requires StartsWith(line, DataPrefix) && parse(Trim(line[6..])) == None
    ensures EventsOf(parse, before + [line] + after) == EventsOf(parse, before) + EventsOf(parse, after)
  {
    assert LineEvent(parse, line) == [];
    assert EventsOf(parse, [line]) == [] by {
      assert [line][..0] == [];
    }
    EventsOfAppend(parse, before + [line], after);
    EventsOfAppend(parse, before, [line]);
  }

  // ---------------------------------------------------------------------------
  // Line framing

  /** Lines followed by their terminators: `l0 + "\n" + l1 + "\n" + ...`. */
  function Terminated(lines: seq<string>): string
  {
    if lines == [] then [] else lines[0] + "\n" + Terminated(lines[1..])
  }

  lemma {:induction false} TerminatedAppend(a: seq<string>, b: seq<string>)
    ensures Terminated(a + b) == Terminated(a) + Terminated(b)
  {
    if a != [] {
      assert (a + b)[1..] == a[1..] + b;
      TerminatedAppend(a[1..], b);
    } else {
      assert a + b == b;
    }
  }

  lemma {:induction false} JoinIsTerminated(lines: seq<string>, last: string)
    ensures Join(lines + [last], '\n') == Terminated(lines) + last
  {
    if lines != [] {
      assert (lines + [last])[1..] == lines[1..] + [last];
      JoinIsTerminated(lines[1..], last);
    }
  }

  predicate NoNewline(s: string)
  {
    '\n' !in s
  }

  predicate AllNoNewline(lines: seq<string>)
  {
    forall i :: 0 <= i < |lines| ==> NoNewline(lines[i])
  }

  /** The complete lines of a text: everything `split("\n")` gives but the last piece. */
  function CompleteLines(text: string): (r: seq<string>)
    ensures AllNoNewline(r)
  {
    var pieces := Split(text, '\n');
    pieces[..|pieces| - 1]
  }

  /** What is left after the last "\n": `lines.pop()`. */
  function Rest(text: string): (r: string)
    ensures NoNewline(r)
  {
    var pieces := Split(text, '\n');
    pieces[|pieces| - 1]
  }

  /** A text is its complete lines, each with its terminator, then the rest. */
  lemma {:induction false} LinesThenRest(text: string)
    ensures Terminated(CompleteLines(text)) + Rest(text) == text
  {
    var pieces := Split(text, '\n');
    var n := |pieces|;
    JoinSplit(text, '\n');
    assert pieces[..n - 1] + [pieces[n - 1]] == pieces;
    JoinIsTerminated(pieces[..n - 1], pieces[n - 1]);
  }

  /** That decomposition is unique: any newline-free lines and newline-free
      rest that spell the text are its complete lines and its rest. This is why
      the delivered events do not depend on where the chunks were cut. */
  lemma {:induction false} FramingUnique(lines: seq<string>, rest: string, text: string)
    requires AllNoNewline(lines) && NoNewline(rest)
    requires Terminated(lines) + rest == text
    ensures lines == CompleteLines(text) && rest == Rest(text)
  {
    var pieces := lines + [rest];
    JoinIsTerminated(lines, rest);
    assert forall i :: 0 <= i < |pieces| ==> '\n' !in pieces[i] by {
      forall i | 0 <= i < |pieces| ensures '\n' !in pieces[i] {
        if i < |lines| { assert pieces[i] == lines[i]; }
      }
    }
    SplitJoin(pieces, '\n');
    assert pieces[..|pieces| - 1] == lines;
  }

  /** A trailing partial line, one with no "\n" after it, delivers nothing:
      it only lengthens the rest. */
  lemma {:induction false} PartialLineNotDelivered(text: string, partial: string)
    requires NoNewline(partial)
    ensures CompleteLines(text + partial) == CompleteLines(text)
    ensures Rest(text + partial) == Rest(text) + partial
  {
    var lines, rest := CompleteLines(text), Rest(text);
    LinesThenRest(text);
    assert Terminated(lines) + (rest + partial) == text + partial;
    assert NoNewline(rest + partial);
    FramingUnique(lines, rest + partial, text + partial);
  }

  /** Feeding a chunk to a well-framed state: the new complete lines are
      appended, and the result is again the framing of everything fed. */
  lemma {:induction false} FramingStep(lines: seq<string>, buffer: string, fed: string, chunk: string)
    requires AllNoNewline(lines) && NoNewline(buffer) && Terminated(lines) + buffer == fed
    ensures AllNoNewline(lines + CompleteLines(buffer + chunk))
    ensures Terminated(lines + CompleteLines(buffer + chunk)) + Rest(buffer + chunk) == fed + chunk
    ensures lines + CompleteLines(buffer + chunk) == CompleteLines(fed + chunk)
    ensures Rest(buffer + chunk) == Rest(fed + chunk)
  {
    var complete := CompleteLines(buffer + chunk);
    var all := lines + complete;
    assert AllNoNewline(all) by {
      forall i | 0 <= i < |all| ensures NoNewline(all[i]) {
        if i < |lines| { assert all[i] == lines[i]; }
        else { assert all[i] == complete[i - |lines|]; }
      }
    }
    TerminatedAppend(lines, complete);
    LinesThenRest(buffer + chunk);
    assert Terminated(all) + Rest(buffer + chunk) == Terminated(lines) + (buffer + chunk);
    FramingUnique(all, Rest(buffer + chunk), fed + chunk);
  }

  /** The concatenation of the chunks read so far. */
  function Concat(chunks: seq<string>): string
  {
    if chunks == [] then [] else Concat(chunks[..|chunks| - 1]) + chunks[|chunks| - 1]
  }

  /** The carry buffer of `queryStream`: `buffer` holds the unterminated end of
      the text fed so far, and `events` what `onEvent` has been called with. */
  class LineFramer {
    const parse: string -> Option<StreamEvent>
    var buffer: string
    var events: seq<StreamEvent>
    /** everything fed so far */
    ghost var fed: string
    /** the complete lines handled so far */
    ghost var lines: seq<string>

    ghost predicate Valid()
      reads this
    {
      && NoNewline(buffer)
      && AllNoNewline(lines)
      && Terminated(lines) + buffer == fed
      && events == EventsOf(parse, lines)
    }

    constructor (parse: string -> Option<StreamEvent>)
      ensures Valid() && this.parse == parse
      ensures buffer == [] && events == [] && fed == [] && lines == []
    {
      this.parse := parse;
      buffer := [];
      events := [];
      fed := [];
      lines := [];
    }

    /** The body of the inner loop for one complete line: a `data: ` line
        whose trimmed payload is non-empty and parses is handed on. */
    method HandleLine(line: string) returns (delivered: seq<StreamEvent>)
      ensures delivered == LineEvent(parse, line)
    {
      delivered := [];
      if StartsWith(line, DataPrefix) {
        var raw := Trim(line[|DataPrefix|..]);
        if raw != [] {
          var parsed := parse(raw);
          if parsed.Some? {
            delivered := [parsed.value];  // onEvent(event)
          }
        }
      }
    }

    /** The inner `for (const line of lines)` loop: every complete line in
        order, each delivering what `HandleLine` gives. */
    method HandleLines(complete: seq<string>) returns (delivered: seq<StreamEvent>)
      ensures delivered == EventsOf(parse, complete)
    {
      delivered := [];
      for i := 0 to |complete|
        invariant delivered == EventsOf(parse, complete[..i])
      {
        var line := complete[i];
        var one := HandleLine(line);
        delivered := delivered + one;
        assert complete[..i + 1][..i] == complete[..i] && complete[..i + 1][i] == line;
      }
      assert complete[..|complete|] == complete;
    }

    /** One chunk: `buffer += chunk`, split on "\n", keep the last piece as the
        new buffer and hand every complete line to the frame handler. */
    method Feed(chunk: string)
      requires Valid()
      modifies this
      ensures Valid()
      ensures fed == old(fed) + chunk
      ensures lines == old(lines) + CompleteLines(old(buffer) + chunk)
      ensures buffer == Rest(old(buffer) + chunk)
      ensures events == old(events) + EventsOf(parse, CompleteLines(old(buffer) + chunk))
      ensures lines == CompleteLines(fed) && buffer == Rest(fed)
      ensures events == EventsOf(parse, CompleteLines(fed))
    {
      var text := buffer + chunk;
      var pieces := Split(text, '\n');
      var complete := pieces[..|pieces| - 1];
      assert complete == CompleteLines(text);
      buffer := pieces[|pieces| - 1];
      var delivered := HandleLines(complete);
      events := events + delivered;
      EventsOfAppend(parse, lines, complete);
      FramingStep(lines, old(buffer), fed, chunk);
      lines := lines + complete;
      fed := fed + chunk;
    }
  }

  // ---------------------------------------------------------------------------
  // The streamed query

  /** How a streamed query ends: the events handed to `onEvent`, in order, and
      what the returned promise rejects with (`None` when it resolves). */
  datatype Run = Run(delivered: seq<StreamEvent>, thrown: Option<Thrown>)

  /** The behaviour `queryStream` is proved against. No event is delivered
      before the status and body checks pass; after that the events are those
      of the complete lines of the whole text, however it was chunked. */
  function StreamRun(fetched: Fetched, parse: string -> Option<StreamEvent>): Run
  {
    match fetched
    case Rejected(reason) => Run([], Some(reason))
    case Fetched(r) =>
      if !IsOk(r) then Run([], Some(ApiFailure(NonOkError(r.status, r.statusText, r.errorJson))))
      else if r.body.None? then Run([], Some(ApiFailure(ApiError(NoBodyError, None, Undefined))))
      else Run(EventsOf(parse, CompleteLines(Concat(r.body.value.chunks))), r.body.value.failure)
  }

  /** `api.queryStream(request, onEvent)`. */
  method QueryStream(fetched: Fetched, parse: string -> Option<StreamEvent>)
    returns (delivered: seq<StreamEvent>, thrown: Option<Thrown>)
    ensures Run(delivered, thrown) == StreamRun(fetched, parse)
  {
    if fetched.Rejected? {
      return [], Some(fetched.reason);
    }
    var r := fetched.response;
    if !IsOk(r) {
      return [], Some(ApiFailure(NonOkError(r.status, r.statusText, r.errorJson)));
    }
    if r.body.None? {
      return [], Some(ApiFailure(ApiError(NoBodyError, None, Undefined)));
    }
    var chunks := r.body.value.chunks;
    var framer := new LineFramer(parse);
    for i := 0 to |chunks|
      invariant framer.Valid() && framer.parse == parse
      invariant framer.fed == Concat(chunks[..i])
      invariant framer.events == EventsOf(parse, CompleteLines(framer.fed))
    {
      framer.Feed(chunks[i]);
      assert chunks[..i + 1][..i] == chunks[..i];
    }
    assert chunks[..|chunks|] == chunks;
    delivered := framer.events;
    thrown := r.body.value.failure;
  }

  /** Nothing is delivered when the request fails before streaming: a
      rejected fetch, a non-OK status, or an OK response without a body, which
      fails with "No response body from stream". */
  lemma {:induction false} NothingBeforeStreaming(fetched: Fetched, parse: string -> Option<StreamEvent>)
    requires fetched.Rejected? || !IsOk(fetched.response) || fetched.response.body.None?
    ensures StreamRun(fetched, parse).delivered == []
    ensures StreamRun(fetched, parse).thrown.Some?
    ensures fetched.Fetched? && IsOk(fetched.response) ==>
      StreamRun(fetched, parse).thrown == Some(ApiFailure(ApiError("No response body from stream", None, Undefined)))
  {
  }

  /** The streaming endpoint and `handleResponse` report a non-OK response
      with the same error. */
  lemma {:induction false} NonOkSameInBothPaths<T>(r: Response, parse: string -> Option<StreamEvent>, json: Result<T, Thrown>)
    requires !IsOk(r)
    ensures HandleResponse(r, json).Failure?
    ensures StreamRun(Fetched(r), parse).thrown == Some(HandleResponse(r, json).error)
  {
  }

  /** Chunk boundaries do not matter: two bodies whose chunks spell the same
      text deliver the same events. */
  lemma {:induction false} ChunkingIndependent(parse: string -> Option<StreamEvent>, r: Response, a: seq<string>, b: seq<string>, failure: Option<Thrown>)
    requires Concat(a) == Concat(b)
    ensures StreamRun(Fetched(r.(body := Some(Body(a, failure)))), parse)
         == StreamRun(Fetched(r.(body := Some(Body(b, failure)))), parse)
  {
  }

  lemma {:induction false} ConcatAppend(a: seq<string>, b: seq<string>)
    ensures Concat(a + b) == Concat(a) + Concat(b)
  {
    if b != [] {
      assert (a + b)[..|a + b| - 1] == a + b[..|b| - 1];
      ConcatAppend(a, b[..|b| - 1]);
    } else {
      assert a + b == a;
    }
  }

  /** Splitting a chunk in two changes nothing that is delivered. */
  lemma {:induction false} SplitChunkSameEvents(parse: string -> Option<StreamEvent>, before: seq<string>, x: string, y: string, after: seq<string>)
    ensures EventsOf(parse, CompleteLines(Concat(before + [x + y] + after)))
         == EventsOf(parse, CompleteLines(Concat(before + [x, y] + after)))
  {
    ConcatAppend(before + [x + y], after);
    ConcatAppend(before, [x + y]);
    ConcatAppend(before + [x, y], after);
    ConcatAppend(before, [x, y]);
    assert Concat([x + y]) == x + y by { assert [x + y][..0] == []; }
    assert Concat([x, y]) == x + y by { assert [x, y][..1] == [x]; assert [x][..0] == []; }
  }
}
