/** The MuChat client of server/muchat_client.go: the request it builds, how
    it classifies the response status, and the text the returned reader
    carries in stream and non-stream mode. The HTTP exchange and JSON
    decoding belong to libraries, so they arrive as inputs: an Exchange says
    how the request fared, and `decode` is the partial function that reads
    the `answer` field out of a JSON document. */
module MuChat {
  import opened Wrappers
  import opened Text

  const UrlPrefix := "https://app.mu.chat/api/agents/"
  const UrlSuffix := "/query"
  const DataPrefix := "data:"

  /** The JSON values the request body holds. */
  datatype Json = JString(s: string) | JBool(b: bool)

  datatype Request = Request(
    verb: string,
    url: string,
    headers: map<string, string>,
    body: map<string, Json>)

  datatype Response = Response(status: int, body: string)

  /** What became of the request: it could not be built (the URL did not
      parse), it could not be sent, or the server answered. */
  datatype Exchange =
    | Unbuildable(buildError: string)
    | TransportFailed(sendError: string)
    | Responded(response: Response)

  datatype AskError =
    | RequestFailed(buildError: string)
    | SendFailed(sendError: string)
    | Forbidden
    | UnexpectedStatus(status: int)
    | DecodeFailed

  /** The query endpoint of an agent. */
  function QueryUrl(agentId: string): (url: string)
    ensures |url| == |UrlPrefix| + |agentId| + |UrlSuffix|
    ensures url[..|UrlPrefix|] == UrlPrefix
    ensures url[|UrlPrefix|..|UrlPrefix| + |agentId|] == agentId
    ensures url[|UrlPrefix| + |agentId|..] == UrlSuffix
  {
    UrlPrefix + agentId + UrlSuffix
  }

  /** Reads the agent id back out of a query endpoint. */
  function AgentOf(url: string): (agentId: Option<string>)
    ensures agentId.Some? ==> QueryUrl(agentId.value) == url
  {
    if |url| >= |UrlPrefix| + |UrlSuffix| && url[..|UrlPrefix|] == UrlPrefix && url[|url| - |UrlSuffix|..] == UrlSuffix
    then
      var id := url[|UrlPrefix|..|url| - |UrlSuffix|];
      assert url == UrlPrefix + id + UrlSuffix;
      Some(id)
    else None
  }

  /** The endpoint names its agent: the id can be read back from it, so two
      agents never share an endpoint. */
  lemma AgentOfQueryUrl(agentId: string)
    ensures AgentOf(QueryUrl(agentId)) == Some(agentId)
  {
    var url := QueryUrl(agentId);
    assert url[|url| - |UrlSuffix|..] == UrlSuffix;
  }

  lemma QueryUrlInjective(a: string, b: string)
    requires QueryUrl(a) == QueryUrl(b)
    ensures a == b
  {
    AgentOfQueryUrl(a);
    AgentOfQueryUrl(b);
  }

  /** The POST request Ask sends: the body holds exactly the query and the
      stream flag, and the API key travels as a bearer token. */
  function BuildRequest(apiKey: string, agentId: string, query: string, stream: bool): (r: Request)
    ensures r.verb == "POST"
    ensures r.url == QueryUrl(agentId)
    ensures r.body.Keys == {"query", "stream"}
    ensures r.body["query"] == JString(query) && r.body["stream"] == JBool(stream)
    ensures r.headers.Keys == {"Authorization", "Content-Type"}
    ensures r.headers["Authorization"] == "Bearer " + apiKey
    ensures r.headers["Content-Type"] == "application/json"
  {
    Request(
      "POST",
      QueryUrl(agentId),
      map["Authorization" := "Bearer " + apiKey, "Content-Type" := "application/json"],
      map["query" := JString(query), "stream" := JBool(stream)])
  }

  /** The status check: 403 means a bad API key and is checked first; any
      other status but 200 is reported with its code. */
  function CheckStatus(status: int): (e: Option<AskError>)
    ensures e == None <==> status == 200
    ensures status == 403 ==> e == Some(Forbidden)
    ensures status != 200 && status != 403 ==> e == Some(UnexpectedStatus(status))
  {
    if status == 403 then Some(Forbidden)
    else if status != 200 then Some(UnexpectedStatus(status))
    else None
  }

  /** One trailing carriage return is dropped from a scanned line. */
  function DropCR(line: string): (r: string)
    ensures r + (if |line| > 0 && line[|line| - 1] == '\r' then "\r" else "") == line
  {
    if |line| > 0 && line[|line| - 1] == '\r' then line[..|line| - 1] else line
  }

  /** The lines a line scanner yields from a body: the text between newlines,
      each without a trailing carriage return; a final newline does not open
      an extra empty line, and an empty body has no lines. */
  function ScanLines(body: string): (lines: seq<string>)
    ensures |lines| <= |Split(body, '\n')|
  {
    var pieces := Split(body, '\n');
    var kept := if pieces[|pieces| - 1] == [] then pieces[..|pieces| - 1] else pieces;
    seq(|kept|, i requires 0 <= i < |kept| => DropCR(kept[i]))
  }

  /** The lines are the newline-separated pieces of the body, each without
      one trailing carriage return; the empty piece after a final newline,
      or of an empty body, is not a line. */
  lemma ScanLinesPieces(body: string)
    ensures var pieces := Split(body, '\n');
      |ScanLines(body)| == |pieces| - (if body == [] || body[|body| - 1] == '\n' then 1 else 0)
    ensures forall k :: 0 <= k < |ScanLines(body)| ==> ScanLines(body)[k] == DropCR(Split(body, '\n')[k])
  {
    SplitLastPiece(body, '\n');
  }

  /** A line that scans back as it is: no newline in it and no carriage
      return at its end. */
  predicate PlainLine(line: string)
  {
    '\n' !in line && (line == [] || line[|line| - 1] != '\r')
  }

  /** Lines sent one after the other, each ended by a newline, are scanned
      back as they were sent, provided none holds a newline or ends with a
      carriage return. */
  lemma ScanTerminatedLines(lines: seq<string>)
    requires forall k :: 0 <= k < |lines| ==> PlainLine(lines[k])
    ensures ScanLines(Join(lines + [[]], '\n')) == lines
  {
    var parts := lines + [[]];
    forall k | 0 <= k < |parts| ensures '\n' !in parts[k] {
      if k < |lines| {
        assert PlainLine(lines[k]);
      }
    }
    SplitJoin(parts, '\n');
    ScanOfEmptyEnded(Join(parts, '\n'), parts);
    assert parts[..|lines|] == lines;
  }

  lemma ScanOfEmptyEnded(body: string, parts: seq<string>)
    requires Split(body, '\n') == parts && parts[|parts| - 1] == []
    requires forall k :: 0 <= k < |parts| - 1 ==> PlainLine(parts[k])
    ensures ScanLines(body) == parts[..|parts| - 1]
  {
    var scanned := ScanLines(body);
    var kept := parts[..|parts| - 1];
    assert |scanned| == |kept|;
    forall k | 0 <= k < |kept| ensures scanned[k] == kept[k] {
      assert PlainLine(parts[k]);
      assert scanned[k] == DropCR(kept[k]);
    }
  }

  /** What one scanned line contributes to the stream: the answer of a
      `data:` line whose remainder decodes, and nothing otherwise. */
  function AnswerOf(line: string, decode: string -> Option<string>): seq<string>
  {
    if HasPrefix(line, DataPrefix) then
      match decode(TrimPrefix(line, DataPrefix))
      case Some(answer) => [answer]
      case None => []
    else []
  }

  /** The answers of the first `n` lines, in line order. */
  function AnswersUpTo(lines: seq<string>, n: nat, decode: string -> Option<string>): seq<string>
    requires n <= |lines|
  {
    if n == 0 then [] else AnswersUpTo(lines, n - 1, decode) + AnswerOf(lines[n - 1], decode)
  }

  /** The answers of all lines, in line order. */
  function Answers(lines: seq<string>, decode: string -> Option<string>): seq<string>
  {
    AnswersUpTo(lines, |lines|, decode)
  }

  /** The answers of the first lines depend on those lines only. */
  lemma {:induction false} AnswersUpToAgree(x: seq<string>, y: seq<string>, n: nat, decode: string -> Option<string>)
    requires n <= |x| && n <= |y|
    requires forall j :: 0 <= j < n ==> x[j] == y[j]
    ensures AnswersUpTo(x, n, decode) == AnswersUpTo(y, n, decode)
  {
    if n > 0 {
      AnswersUpToAgree(x, y, n - 1, decode);
    }
  }

  /** The answers of the first lines are the first answers. */
  lemma {:induction false} AnswersUpToPrefix(lines: seq<string>, i: nat, n: nat, decode: string -> Option<string>)
    requires i <= n <= |lines|
    ensures |AnswersUpTo(lines, i, decode)| <= |AnswersUpTo(lines, n, decode)|
    ensures AnswersUpTo(lines, n, decode)[..|AnswersUpTo(lines, i, decode)|] == AnswersUpTo(lines, i, decode)
    decreases n
  {
    if i < n {
      AnswersUpToPrefix(lines, i, n - 1, decode);
      var before := AnswersUpTo(lines, n - 1, decode);
      PrefixOfAppend(before, AnswerOf(lines[n - 1], decode));
    }
  }

  lemma PrefixOfAppend<T>(a: seq<T>, b: seq<T>)
    ensures (a + b)[..|a|] == a
  {
  }

  /** The answers of lines one after the other are the answers of each
      part one after the other. */
  lemma {:induction false} AnswersAppend(a: seq<string>, b: seq<string>, decode: string -> Option<string>)
    ensures Answers(a + b, decode) == Answers(a, decode) + Answers(b, decode)
  {
    AnswersUpToAppend(a, b, |b|, decode);
  }

  lemma {:induction false} AnswersUpToAppend(a: seq<string>, b: seq<string>, k: nat, decode: string -> Option<string>)
    requires k <= |b|
    ensures AnswersUpTo(a + b, |a| + k, decode) == Answers(a, decode) + AnswersUpTo(b, k, decode)
  {
    if k == 0 {
      AnswersUpToAgree(a + b, a, |a|, decode);
    } else {
      AnswersUpToAppend(a, b, k - 1, decode);
      assert (a + b)[|a| + k - 1] == b[k - 1];
    }
  }

  /** A line that is not a `data:` line, or whose remainder does not decode,
      is skipped: putting it anywhere among the lines changes nothing, and
      the lines after it still count. */
  lemma SkippedLineChangesNothing(before: seq<string>, line: string, after: seq<string>, decode: string -> Option<string>)
    requires !HasPrefix(line, DataPrefix) || decode(TrimPrefix(line, DataPrefix)) == None
    ensures Answers(before + [line] + after, decode) == Answers(before + after, decode)
  {
    assert AnswersUpTo([line], 0, decode) == [];
    assert Answers([line], decode) == [];
    AnswersAppend(before, [line], decode);
    AnswersAppend(before + [line], after, decode);
    AnswersAppend(before, after, decode);
  }

  /** Every answer comes from a `data:` line whose remainder decodes to it. */
  lemma {:induction false} AnswersComeFromDataLines(lines: seq<string>, n: nat, decode: string -> Option<string>)
    requires n <= |lines|
    ensures forall a <- AnswersUpTo(lines, n, decode) ::
      exists line <- lines :: HasPrefix(line, DataPrefix) && decode(TrimPrefix(line, DataPrefix)) == Some(a)
  {
    if n > 0 {
      AnswersComeFromDataLines(lines, n - 1, decode);
      assert lines[n - 1] in lines;
    }
  }

  /** When the pump stops at line `i`, the answers it wrote are the first
      answers and there was at least one more to write. */
  lemma StoppedEarly(lines: seq<string>, i: nat, written: seq<string>, answer: string, decode: string -> Option<string>)
    requires i < |lines| && written == AnswersUpTo(lines, i, decode)
    requires AnswerOf(lines[i], decode) == [answer]
    ensures |written| < |Answers(lines, decode)|
    ensures Answers(lines, decode)[..|written|] == written
  {
    AnswersUpToPrefix(lines, i + 1, |lines|, decode);
    PrefixOfAppend(written, [answer]);
  }

  /** The pump of stream mode: writes the answer of every `data:` line that
      decodes, in order, into the pipe. The pipe accepts `accepted` writes
      before its reader is closed (None: it never is); the first write that
      fails ends the pump, so nothing is written after it. */
  method Pump(lines: seq<string>, decode: string -> Option<string>, accepted: Option<nat>)
    returns (written: seq<string>, failed: bool)
    ensures !failed <==> accepted.None? || |Answers(lines, decode)| <= accepted.value
    ensures !failed ==> written == Answers(lines, decode)
    ensures failed ==> written == Answers(lines, decode)[..accepted.value]
  {
    written, failed := [], false;
    var i := 0;
    while i < |lines|
      invariant 0 <= i <= |lines|
      invariant written == AnswersUpTo(lines, i, decode)
      invariant accepted.Some? ==> |written| <= accepted.value
    {
      var line := lines[i];
      if HasPrefix(line, DataPrefix) {
        var decoded := decode(TrimPrefix(line, DataPrefix));
        if decoded.Some? {
          if accepted.Some? && |written| == accepted.value {
            StoppedEarly(lines, i, written, decoded.value, decode);
            failed := true;
            return;
          }
          written := written + [decoded.value];
        }
      }
      i := i + 1;
    }
  }

  /** Ask: builds and sends the request and classifies the answer. On
      success the value is the text the returned reader carries: in stream
      mode the answers of the scanned lines one after the other, otherwise
      the `answer` of the decoded body. */
  function Ask(apiKey: string, agentId: string, query: string, stream: bool,
               exchange: Exchange, decode: string -> Option<string>): (r: Result<string, AskError>)
    ensures exchange.Unbuildable? ==> r == Failure(RequestFailed(exchange.buildError))
    ensures exchange.TransportFailed? ==> r == Failure(SendFailed(exchange.sendError))
    ensures exchange.Responded? && CheckStatus(exchange.response.status).Some? ==>
      r == Failure(CheckStatus(exchange.response.status).value)
    ensures exchange.Responded? && exchange.response.status == 200 && stream ==>
      r == Success(Concat(Answers(ScanLines(exchange.response.body), decode)))
    ensures exchange.Responded? && exchange.response.status == 200 && !stream ==>
      r == (match decode(exchange.response.body)
            case Some(answer) => Success(answer)
            case None => Failure(DecodeFailed))
  {
    match exchange
    case Unbuildable(e) => Failure(RequestFailed(e))
    case TransportFailed(e) => Failure(SendFailed(e))
    case Responded(response) =>
      match CheckStatus(response.status)
      case Some(e) => Failure(e)
      case None =>
        if stream then Success(Concat(Answers(ScanLines(response.body), decode)))
        else
          match decode(response.body)
          case Some(answer) => Success(answer)
          case None => Failure(DecodeFailed)
  }

  /** The decoder of the example below: "1" holds the answer "a", "2" the
      answer "b", and nothing else decodes. */
  function ExampleDecode(s: string): Option<string>
  {
    if s == "1" then Some("a") else if s == "2" then Some("b") else None
  }

  /** A `data:` line contributes what its remainder decodes to. */
  lemma AnswerOfDataLine(payload: string, decode: string -> Option<string>)
    ensures AnswerOf(DataPrefix + payload, decode) == (if decode(payload).Some? then [decode(payload).value] else [])
  {
    assert (DataPrefix + payload)[..|DataPrefix|] == DataPrefix;
    assert (DataPrefix + payload)[|DataPrefix|..] == payload;
  }

  /** The answers of two lines. */
  lemma AnswersOfTwo(lines: seq<string>, decode: string -> Option<string>)
    requires |lines| == 2
    ensures Answers(lines, decode) == AnswerOf(lines[0], decode) + AnswerOf(lines[1], decode)
  {
    assert AnswersUpTo(lines, 1, decode) == AnswerOf(lines[0], decode);
  }

  /** Two `data:` lines that decode yield their answers joined. */
  lemma StreamExample()
    ensures Concat(Answers([DataPrefix + "1", DataPrefix + "2"], ExampleDecode)) == "ab"
  {
    var lines := [DataPrefix + "1", DataPrefix + "2"];
    AnswerOfDataLine("1", ExampleDecode);
    AnswerOfDataLine("2", ExampleDecode);
    AnswersOfTwo(lines, ExampleDecode);
    ConcatCons("a", ["b"]);
    ConcatCons("b", []);
  }

  /** A `data:` line that does not decode is skipped and the stream goes on. */
  lemma MalformedLineExample()
    ensures Concat(Answers([DataPrefix + "notjson", DataPrefix + "1"], ExampleDecode)) == "a"
  {
    var lines := [DataPrefix + "notjson", DataPrefix + "1"];
    AnswerOfDataLine("notjson", ExampleDecode);
    AnswerOfDataLine("1", ExampleDecode);
    AnswersOfTwo(lines, ExampleDecode);
    ConcatCons("a", []);
  }

  /** The whole client on a streamed body: the two `data:` lines of the
      example, each ended by a newline, make Ask answer "ab". */
  lemma AskStreamExample(apiKey: string, agentId: string, query: string)
    ensures Ask(apiKey, agentId, query, true,
                Responded(Response(200, "data:1\ndata:2\n")), ExampleDecode) == Success("ab")
  {
    ScanExampleBody();
    StreamExample();
  }

  lemma ScanExampleBody()
    ensures ScanLines("data:1\ndata:2\n") == [DataPrefix + "1", DataPrefix + "2"]
  {
    var lines := [DataPrefix + "1", DataPrefix + "2"];
    assert PlainLine(lines[0]) && PlainLine(lines[1]);
    ScanTerminatedLines(lines);
    JoinExampleLines();
  }

  lemma JoinExampleLines()
    ensures Join([DataPrefix + "1", DataPrefix + "2", []], '\n') == "data:1\ndata:2\n"
  {
    assert Join([DataPrefix + "2", []], '\n') == "data:2\n";
  }
}
