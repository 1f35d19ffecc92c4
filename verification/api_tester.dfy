/** The API tester view: it sends one chat message either straight to the
    OpenAI-compatible completion endpoint, decoding the streamed answer as it
    arrives, or, when an account is selected, to the admin account-test
    endpoint. The view's React state is the `ApiTester` object; each state
    setter becomes an assignment to one of its fields. */
module ApiTesting {
  import opened Wrappers
  import opened JsString
  import opened Notices
  import opened StreamDecoder

  const ChatModel: string := "deepseek-chat"
  const DefaultMessage: string := "Hello, please introduce yourself in one sentence."

  /** A rejected promise as the view sees it: an abort raised by the abort
      controller's signal, or any other error with its message. */
  datatype Exception = AbortError | Failure(message: string)

  /** How reading the response body ends: the reader reports `done`, or a
      read rejects. */
  datatype StreamEnd = Finished | Broken(error: Exception)

  /** What the network makes of the direct completion request. */
  datatype DirectOutcome =
    | Rejected(error: Exception)        // `fetch` or reading the error body rejects
    | NotOk(errorMessage: string)       // a non-2xx status; the body's `error.message`, "" when absent
    | Streamed(status: int, chunks: seq<string>, end: StreamEnd)  // a 2xx status and the decoded body chunks

  /** The JSON body of the account-test endpoint: `success`, `message` and
      `response_time` (which the server may omit). */
  datatype TestReply = TestReply(success: bool, message: string, responseTime: Option<nat>)

  /** What the network makes of the account-test request. */
  datatype AccountOutcome = Replied(status: int, reply: TestReply) | Threw(message: string)

  /** The `response` panel of the view. */
  datatype Response =
    | StreamOpened(statusCode: int)     // { success: true, status_code }
    | Failed(error: string)             // { success: false, error }
    | AccountTested(success: bool, statusCode: int, reply: TestReply, account: string)
    | AccountUnreachable(error: string) // { error }, with no success field

  /** A request the view sends. */
  datatype Request =
    | Completion(key: string, model: string, message: string)        // POST /v1/chat/completions, streamed
    | AccountTest(identifier: string, model: string, message: string) // POST /admin/accounts/test

  /** The key a direct test authenticates with: the key typed into the view,
      else the first configured key; no key when both are empty. */
  function SelectKey(apiKey: string, keys: seq<string>): (key: Option<string>)
    ensures key.Some? <==> apiKey != [] || (|keys| > 0 && keys[0] != [])
    ensures key.Some? ==> key.value != []
    ensures apiKey != [] ==> key == Some(apiKey)
    ensures apiKey == [] && key.Some? ==> key.value == keys[0]
  {
    var k := if apiKey != [] then apiKey else if |keys| > 0 then keys[0] else [];
    if k == [] then None else Some(k)
  }

  /** The error a non-2xx completion response is reported with: the server's
      message when it gives one, a fixed text otherwise; never empty. */
  function ErrorText(errorMessage: string): (text: string)
    ensures text != []
    ensures errorMessage != [] ==> text == errorMessage
    ensures errorMessage == [] ==> text == "Request failed"
  {
    if errorMessage != [] then errorMessage else "Request failed"
  }

  /** The notice for an exception: an abort is reported as information that
      generation stopped, any other error as a network error that ends with
      the error's message. */
  function ExceptionNotice(e: Exception): (n: Notice)
    ensures n.level == Info <==> e == AbortError
    ensures n.level != Success
    ensures e.Failure? ==> |e.message| <= |n.text| && n.text[|n.text| - |e.message|..] == e.message
    ensures e == AbortError ==> n == Notice(Info, "Generation stopped")
    ensures e.Failure? ==> n == Notice(Error, "Network error: " + e.message)
  {
    match e
    case AbortError => Notice(Info, "Generation stopped")
    case Failure(m) => Notice(Error, "Network error: " + m)
  }

  /** The notice for the reply of the account-test endpoint. */
  function AccountTestNotice(account: string, reply: TestReply): (n: Notice)
    ensures n.level == (if reply.success then Success else Error)
    ensures |account| <= |n.text| && n.text[..|account|] == account
    ensures reply.success ==> n.text == account + ": Test Success (" + OptionalNumber(reply.responseTime) + "ms)"
    ensures !reply.success ==> n.text == account + ": " + reply.message
  {
    if reply.success then Notice(Success, account + ": Test Success (" + OptionalNumber(reply.responseTime) + "ms)")
    else Notice(Error, account + ": " + reply.message)
  }

  class ApiTester {
    var model: string
    var message: string
    var apiKey: string
    var selectedAccount: string
    var response: Option<Response>
    var loading: bool
    var streamingContent: string
    var streamingThinking: string
    var isStreaming: bool
    /** `abortControllerRef.current !== null` */
    var controllerActive: bool
    /** How many times `abort()` has been called on a live controller. */
    var abortsSent: nat
    /** The `onMessage` calls so far, oldest first. */
    var notices: seq<Notice>
    /** The requests sent so far, oldest first. */
    var requests: seq<Request>

    constructor ()
      ensures model == ChatModel && message == DefaultMessage && apiKey == [] && selectedAccount == []
      ensures response == None && !loading && !isStreaming && !controllerActive
      ensures streamingContent == [] && streamingThinking == []
      ensures abortsSent == 0 && notices == [] && requests == []
    {
      model := ChatModel;
      message := DefaultMessage;
      apiKey := [];
      selectedAccount := [];
      response := None;
      loading := false;
      streamingContent := [];
      streamingThinking := [];
      isStreaming := false;
      controllerActive := false;
      abortsSent := 0;
      notices := [];
      requests := [];
    }

    /** The "stop" button: abort the request in flight, if any, and leave the
        loading and streaming states. */
    method StopGeneration()
      modifies this`controllerActive, this`abortsSent, this`loading, this`isStreaming
      ensures !controllerActive && !loading && !isStreaming
      ensures abortsSent == old(abortsSent) + (if old(controllerActive) then 1 else 0)
    {
      if controllerActive {
        abortsSent := abortsSent + 1;
        controllerActive := false;
      }
      loading := false;
      isStreaming := false;
    }

    /** Decodes the complete lines of one read, in order, into the two
        accumulators, as the inner loop of the read loop does. */
    method ProcessLines(lines: seq<string>, parse: Parser)
      modifies this`streamingContent, this`streamingThinking
      ensures Acc(streamingContent, streamingThinking)
              == Accumulate(old(Acc(streamingContent, streamingThinking)), lines, parse)
    {
      ghost var start := Acc(streamingContent, streamingThinking);
      for i := 0 to |lines|
        invariant Acc(streamingContent, streamingThinking) == Accumulate(start, lines[..i], parse)
      {
        AccumulateSnoc(start, lines[..i], lines[i], parse);
        assert lines[..i + 1] == lines[..i] + [lines[i]];
        var trimmed := Trim(lines[i]);
        if trimmed != [] && StartsWith(trimmed, DataPrefix) {
          var dataStr := trimmed[|DataPrefix|..];
          if dataStr != DoneSentinel {
            match parse(dataStr)
            case None =>
            case Some(delta) =>
              if delta.reasoning != [] {
                streamingThinking := streamingThinking + delta.reasoning;
              }
              if delta.content != [] {
                streamingContent := streamingContent + delta.content;
              }
          }
        }
      }
      assert lines[..|lines|] == lines;
    }

    /** One read of the loop: the chunk is appended to the held-back
        buffer, the complete lines of the result are decoded and what follows
        the last newline is returned as the new buffer. */
    method ReadChunk(buffer: string, chunk: string, parse: Parser) returns (rest: string)
      modifies this`streamingContent, this`streamingThinking
      ensures Init(Split(buffer + chunk)) + [rest] == Split(buffer + chunk)
      ensures Acc(streamingContent, streamingThinking)
              == Accumulate(old(Acc(streamingContent, streamingThinking)), Init(Split(buffer + chunk)), parse)
    {
      var lines := Split(buffer + chunk);
      rest := lines[|lines| - 1];
      ProcessLines(lines[..|lines| - 1], parse);
    }

    /** The read loop: each chunk is appended to a buffer, the buffer is cut
        at its newlines, the complete lines are decoded and the unterminated
        rest is kept for the next read. The accumulators end as the decoding
        of the whole text, however the text was cut into chunks. */
    method ReadStream(chunks: seq<string>, parse: Parser)
      modifies this`streamingContent, this`streamingThinking
      ensures Acc(streamingContent, streamingThinking)
              == Accumulate(old(Acc(streamingContent, streamingThinking)), CompleteLines(Concat(chunks)), parse)
    {
      ghost var start := Acc(streamingContent, streamingThinking);
      ghost var processed: seq<string> := [];
      var buffer: string := [];
      var i := 0;
      while i < |chunks|
        invariant 0 <= i <= |chunks|
        invariant processed + [buffer] == Split(Concat(chunks[..i]))
        invariant processed == CompleteLines(Concat(chunks[..i])) && NoNewline(buffer)
        invariant Acc(streamingContent, streamingThinking) == Accumulate(start, processed, parse)
      {
        ghost var before := Acc(streamingContent, streamingThinking);
        var rest := ReadChunk(buffer, chunks[i], parse);
        ReadStep(chunks, i, processed, buffer, rest, start, before, Acc(streamingContent, streamingThinking), parse);
        processed := processed + Init(Split(buffer + chunks[i]));
        buffer := rest;
        i := i + 1;
      }
      assert Init(processed + [buffer]) == processed;
      assert chunks[..|chunks|] == chunks;
    }

    /** The state a direct test leaves behind, given the configured keys, the
        frame parser and what the network did. A test started while another
        is loading changes nothing. Otherwise loading, streaming and the abort
        controller are all cleared at the end; a missing key raises an error
        notice and sends nothing; a rejected request or a non-2xx reply
        leaves the accumulators empty; a streamed reply leaves them holding
        the decoding of the received text, and an error that breaks the
        stream is reported after it. */
    twostate predicate DirectTestDone(keys: seq<string>, parse: Parser, outcome: DirectOutcome)
      reads this
    {
      if old(loading) then
        unchanged(this)
      else
        && !loading && !isStreaming && !controllerActive
        && abortsSent == old(abortsSent)
        && model == old(model) && message == old(message) && apiKey == old(apiKey)
        && selectedAccount == old(selectedAccount)
        && match SelectKey(old(apiKey), keys)
           case None =>
             && response == None && streamingContent == [] && streamingThinking == []
             && requests == old(requests)
             && notices == old(notices) + [Notice(Error, "Please provide an API Key")]
           case Some(key) =>
             Exchanged(key, parse, outcome, old(model), old(message), old(requests), old(notices), None, Empty)
    }

    /** What the completion exchange leaves behind, given the request's
        model and message and the requests, notices, response and
        accumulators it started from. The request is sent. A rejected request
        goes through the catch clause. A non-2xx reply becomes a failure
        response and an error notice, with the accumulators untouched. A
        streamed reply shows its status, and the accumulators continue with
        the decoding of the received text; a read that breaks the stream is
        caught after it. */
    predicate Exchanged(key: string, parse: Parser, outcome: DirectOutcome, model0: string, message0: string,
                        requests0: seq<Request>, notices0: seq<Notice>, response0: Option<Response>, acc0: Acc)
      reads this`requests, this`notices, this`response, this`streamingContent, this`streamingThinking
    {
      && requests == requests0 + [Completion(key, model0, message0)]
      && match outcome
         case Rejected(e) =>
           && Acc(streamingContent, streamingThinking) == acc0
           && response == (if e == AbortError then response0 else Some(Failed(e.message)))
           && notices == notices0 + [ExceptionNotice(e)]
         case NotOk(m) =>
           && Acc(streamingContent, streamingThinking) == acc0
           && response == Some(Failed(ErrorText(m)))
           && notices == notices0 + [Notice(Error, ErrorText(m))]
         case Streamed(status, chunks, end) =>
           && Acc(streamingContent, streamingThinking) == Accumulate(acc0, CompleteLines(Concat(chunks)), parse)
           && response == (if end.Broken? && end.error.Failure? then Some(Failed(end.error.message))
                           else Some(StreamOpened(status)))
           && notices == notices0 + (if end.Broken? then [ExceptionNotice(end.error)] else [])
    }

    /** The catch clause of a direct test. */
    method Catch(e: Exception)
      modifies this`notices, this`response
      ensures notices == old(notices) + [ExceptionNotice(e)]
      ensures response == if e == AbortError then old(response) else Some(Failed(e.message))
    {
      if e == AbortError {
        notices := notices + [Notice(Info, "Generation stopped")];
      } else {
        notices := notices + [Notice(Error, "Network error: " + e.message)];
        response := Some(Failed(e.message));
      }
    }

    /** The completion request and the handling of its reply once a key is
        known, with the catch clause: the rest of the try block of a direct
        test. */
    method Exchange(key: string, parse: Parser, outcome: DirectOutcome)
      modifies this`loading, this`isStreaming, this`response, this`streamingContent,
               this`streamingThinking, this`notices, this`requests
      ensures Exchanged(key, parse, outcome, model, message, old(requests), old(notices), old(response),
                        old(Acc(streamingContent, streamingThinking)))
      ensures outcome.NotOk? ==> !loading && !isStreaming
      ensures !outcome.NotOk? ==> loading == old(loading) && isStreaming == old(isStreaming)
    {
      requests := requests + [Completion(key, model, message)];
      match outcome
      case Rejected(e) =>
        Catch(e);
      case NotOk(m) =>
        var error := ErrorText(m);
        response := Some(Failed(error));
        notices := notices + [Notice(Error, error)];
        loading := false;
        isStreaming := false;
      case Streamed(status, chunks, end) =>
        response := Some(StreamOpened(status));
        ReadStream(chunks, parse);
        if end.Broken? {
          Catch(end.error);
        }
    }

    /** A direct, streamed completion request with the typed or the first
        configured key. */
    method DirectTest(keys: seq<string>, parse: Parser, outcome: DirectOutcome)
      modifies this`loading, this`isStreaming, this`response, this`streamingContent,
               this`streamingThinking, this`controllerActive, this`notices, this`requests
      ensures DirectTestDone(keys, parse, outcome)
    {
      if loading {
        return;
      }
      Begin();
      var key := SelectKey(apiKey, keys);
      if key.None? {
        RefuseWithoutKey();
      } else {
        ExchangeThenSettle(key.value, parse, outcome);
      }
    }

    /** The start of a direct test: loading and streaming, with the reply
        and both accumulators cleared and a fresh abort controller. */
    method Begin()
      modifies this`loading, this`isStreaming, this`response, this`streamingContent,
               this`streamingThinking, this`controllerActive
      ensures loading && isStreaming && controllerActive
      ensures response == None && streamingContent == [] && streamingThinking == []
    {
      loading := true;
      isStreaming := true;
      response := None;
      streamingContent := [];
      streamingThinking := [];
      controllerActive := true;
    }

    /** No key to send with: the user is told so, and the finally clause
        runs. */
    method RefuseWithoutKey()
      modifies this`loading, this`isStreaming, this`controllerActive, this`notices
      ensures !loading && !isStreaming && !controllerActive
      ensures notices == old(notices) + [Notice(Error, "Please provide an API Key")]
    {
      notices := notices + [Notice(Error, "Please provide an API Key")];
      loading := false;
      isStreaming := false;
      // finally
      loading := false;
      isStreaming := false;
      controllerActive := false;
    }

    /** The exchange with a known key followed by the finally clause. */
    method ExchangeThenSettle(key: string, parse: Parser, outcome: DirectOutcome)
      modifies this`loading, this`isStreaming, this`response, this`streamingContent,
               this`streamingThinking, this`controllerActive, this`notices, this`requests
      ensures !loading && !isStreaming && !controllerActive
      ensures Exchanged(key, parse, outcome, model, message, old(requests), old(notices), old(response),
                        old(Acc(streamingContent, streamingThinking)))
    {
      Exchange(key, parse, outcome);
      loading := false;
      isStreaming := false;
      controllerActive := false;
    }

    /** The state an account test leaves behind: the request names the
        selected account, the model and the message; the reply or the error
        is shown and announced; loading ends; the streaming state is not
        touched. */
    twostate predicate AccountTestDone(outcome: AccountOutcome)
      reads this
    {
      && !loading
      && isStreaming == old(isStreaming) && controllerActive == old(controllerActive)
      && streamingContent == old(streamingContent) && streamingThinking == old(streamingThinking)
      && abortsSent == old(abortsSent)
      && model == old(model) && message == old(message) && apiKey == old(apiKey)
      && selectedAccount == old(selectedAccount)
      && requests == old(requests) + [AccountTest(old(selectedAccount), old(model), old(message))]
      && match outcome
         case Replied(status, reply) =>
           && response == Some(AccountTested(reply.success, status, reply, old(selectedAccount)))
           && notices == old(notices) + [AccountTestNotice(old(selectedAccount), reply)]
         case Threw(m) =>
           && response == Some(AccountUnreachable(m))
           && notices == old(notices) + [ExceptionNotice(Failure(m))]
    }

    /** The "send" button: with an account selected, test that account
        through the admin endpoint (whether or not a test is loading);
        otherwise run a direct test. */
    method SendTest(keys: seq<string>, parse: Parser, accountOutcome: AccountOutcome, directOutcome: DirectOutcome)
      modifies this`loading, this`isStreaming, this`response, this`streamingContent,
               this`streamingThinking, this`controllerActive, this`notices, this`requests
      ensures old(selectedAccount) != [] ==> AccountTestDone(accountOutcome)
      ensures old(selectedAccount) == [] ==> DirectTestDone(keys, parse, directOutcome)
    {
      if selectedAccount != [] {
        loading := true;
        response := None;
        requests := requests + [AccountTest(selectedAccount, model, message)];
        match accountOutcome {
          case Replied(status, reply) =>
            response := Some(AccountTested(reply.success, status, reply, selectedAccount));
            notices := notices + [AccountTestNotice(selectedAccount, reply)];
          case Threw(m) =>
            notices := notices + [ExceptionNotice(Failure(m))];
            response := Some(AccountUnreachable(m));
        }
        // finally
        loading := false;
        return;
      }
      DirectTest(keys, parse, directOutcome);
    }
  }
}
