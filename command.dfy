/** The `/mu` slash command of server/command.go: the argument checks, the
    placeholder post, and the loop that streams MuChat's answer into that
    post, pushing the text received so far after every chunk. */
module Command {
  import opened Wrappers
  import opened Host
  import Text
  import MuChat
  import MuChatPlugin

  const Trigger := "/mu"
  const TriggerAndSpace := "/mu "
  const Typing := "در حال تایپ..."
  const NoMessage := "لطفاً یک پیام وارد کنید."
  const EmptyMessage := "پیام نمی‌تواند خالی باشد."

  /** The parts of the command arguments the handler reads. */
  datatype CommandArgs = CommandArgs(command: string, channelId: string, userId: string)

  /** Why a command failed after its arguments were accepted. */
  datatype CommandFailure =
    | CreateFailed(appError: string)
    | AgentFailed(askError: MuChat.AskError)
    | ReadFailed(readError: string)

  datatype Outcome =
    | Rejected(message: string)
    | Aborted(failure: CommandFailure)
    | Panicked
    | Done

  /** The question in the command text, or the message of the application
      error that refuses it. */
  function ParseCommand(command: string): (r: Result<string, string>)
    ensures Text.TrimSpace(command) == Trigger ==> r == Failure(NoMessage)
    ensures Text.TrimSpace(command) != Trigger && command == [] ==> r == Failure(EmptyMessage)
    ensures Text.TrimSpace(command) != Trigger && command != [] ==> r.Success?
    ensures r.Failure? ==> r.error == NoMessage || r.error == EmptyMessage
    ensures r.Success? ==> r.value != [] && (Text.HasPrefix(command, TriggerAndSpace) ==> command == TriggerAndSpace + r.value)
    ensures r.Success? && !Text.HasPrefix(command, TriggerAndSpace) ==> r.value == command
  {
    if Text.TrimSpace(command) == Trigger then Failure(NoMessage)
    else
      var message := Text.TrimPrefix(command, TriggerAndSpace);
      Text.TrimPrefixRestores(command, TriggerAndSpace);
      TriggerAndSpaceTrims();
      assert TriggerAndSpace + [] == TriggerAndSpace;
      if message == [] then Failure(EmptyMessage) else Success(message)
  }

  /** "/mu " alone trims to the bare trigger, so the empty-message error
      only ever answers an empty command. */
  lemma TriggerAndSpaceTrims()
    ensures Text.TrimSpace(TriggerAndSpace) == Trigger
  {
    assert Text.TrimSpace(TriggerAndSpace) == Text.TrimSpace(TriggerAndSpace[..|TriggerAndSpace| - 1]);
    assert TriggerAndSpace[..|TriggerAndSpace| - 1] == Trigger;
  }

  /** The messages pushed while reading: after every non-empty chunk, all
      the text received up to and including it. */
  function Progress(pieces: seq<string>): (messages: seq<string>)
    ensures |messages| <= |pieces|
  {
    if pieces == [] then []
    else
      var before := Progress(pieces[..|pieces| - 1]);
      if pieces[|pieces| - 1] == [] then before
      else before + [Text.Concat(pieces)]
  }

  /** Each pushed message extends the one before it, and the last one is
      all the text received. */
  lemma {:induction false} ProgressGrows(pieces: seq<string>)
    ensures forall k :: 0 < k < |Progress(pieces)| ==> Text.HasPrefix(Progress(pieces)[k], Progress(pieces)[k - 1])
    ensures Progress(pieces) != [] ==> Progress(pieces)[|Progress(pieces)| - 1] == Text.Concat(pieces)
    ensures Progress(pieces) == [] ==> Text.Concat(pieces) == []
  {
    if pieces != [] {
      var init := pieces[..|pieces| - 1];
      ProgressGrows(init);
      var last := pieces[|pieces| - 1];
      assert Text.Concat(pieces) == Text.Concat(init) + last;
      if last != [] {
        var p := Progress(pieces);
        assert p == Progress(init) + [Text.Concat(pieces)];
        if Progress(init) != [] {
          var n := |p| - 1;
          assert p[n - 1] == Text.Concat(init);
          assert Text.Concat(pieces)[..|Text.Concat(init)|] == Text.Concat(init);
        }
      }
    }
  }

  /** The messages of the posts sent with UpdatePost. */
  function Messages(updates: seq<Post>): (messages: seq<string>)
    ensures |messages| == |updates|
    ensures forall k :: 0 <= k < |updates| ==> messages[k] == updates[k].message
  {
    seq(|updates|, k requires 0 <= k < |updates| => updates[k].message)
  }

  /** The read loop of ExecuteCommand: appends the data of every Read call
      to the response text and, after each non-empty one, sends the post
      with the text so far as its message. */
  method PushChunks(post: Post, pieces: seq<string>) returns (responseText: string, updates: seq<Post>)
    ensures responseText == Text.Concat(pieces)
    ensures Messages(updates) == Progress(pieces)
    ensures forall u <- updates :: u == post.(message := u.message)
  {
    responseText, updates := "", [];
    var current := post;
    for i := 0 to |pieces|
      invariant responseText == Text.Concat(pieces[..i])
      invariant Messages(updates) == Progress(pieces[..i])
      invariant current == post.(message := current.message)
      invariant forall u <- updates :: u == post.(message := u.message)
    {
      assert pieces[..i + 1][..i] == pieces[..i];
      var chunk := pieces[i];
      if |chunk| > 0 {
        responseText := responseText + chunk;
        current := current.(message := responseText);
        updates := updates + [current];
      }
    }
    assert pieces[..|pieces|] == pieces;
  }

  /** MuChat's answer, in stream mode, to a question under the plugin's
      stored settings. */
  function CommandAnswer(p: MuChatPlugin.Plugin, question: string,
                         exchange: MuChat.Exchange, decode: string -> Option<string>): Result<string, MuChat.AskError>
    reads p, p.configuration
    requires p.configuration != null
  {
    MuChat.Ask(p.configuration.console.muChatApiKey, p.configuration.console.agentId, question, true, exchange, decode)
  }

  /** ExecuteCommand. The host's answers come in as inputs: the result of
      creating the placeholder post, the MuChat exchange with its JSON
      decoder, and the results of reading the returned pipe. The pipe hands
      out MuChat's answer in order, in pieces cut by the pump's writes and
      the read buffer, and all of it when it reaches end of input. The
      outputs are the outcome, the placeholder post it asked to create, the
      request Ask hands to the HTTP client (none when building it fails)
      and the posts sent with UpdatePost, in order.
      The stored configuration is used without the nil check of
      getConfiguration, so a plugin without one panics. */
  method ExecuteCommand(p: MuChatPlugin.Plugin, args: CommandArgs, created: Result<Post, string>,
                        exchange: MuChat.Exchange, decode: string -> Option<string>, received: Reader)
    returns (outcome: Outcome, placeholder: Option<Post>, request: Option<MuChat.Request>, updates: seq<Post>)
    requires ParseCommand(args.command).Success? && p.configuration != null ==>
      var answer := CommandAnswer(p, ParseCommand(args.command).value, exchange, decode);
      answer.Success? ==> Streams(received, answer.value)
    ensures ParseCommand(args.command).Failure? <==> outcome.Rejected?
    ensures outcome.Rejected? ==> outcome.message == ParseCommand(args.command).error
    ensures outcome.Rejected? ==> placeholder == None && updates == []
    ensures ParseCommand(args.command).Success? ==> placeholder == Some(Post([], args.userId, args.channelId, [], Typing))
    ensures ParseCommand(args.command).Success? && created.Failure? <==> outcome.Aborted? && outcome.failure.CreateFailed?
    ensures created.Failure? && ParseCommand(args.command).Success? ==> outcome == Aborted(CreateFailed(created.error))
    ensures outcome.Panicked? <==> ParseCommand(args.command).Success? && created.Success? && p.configuration == null
    ensures request.Some? <==> ParseCommand(args.command).Success? && created.Success? && p.configuration != null && !exchange.Unbuildable?
    ensures request.Some? ==> request.value == MuChat.BuildRequest(
      p.configuration.console.muChatApiKey, p.configuration.console.agentId, ParseCommand(args.command).value, true)
    ensures request.None? ==> updates == []
    ensures ParseCommand(args.command).Success? && created.Success? && p.configuration != null && CommandAnswer(p, ParseCommand(args.command).value, exchange, decode).Failure? ==>
      outcome == Aborted(AgentFailed(CommandAnswer(p, ParseCommand(args.command).value, exchange, decode).error))
      && updates == []
    ensures ParseCommand(args.command).Success? && created.Success? && p.configuration != null && CommandAnswer(p, ParseCommand(args.command).value, exchange, decode).Success? ==>
      (received.final.Eof? ==> outcome.Done?)
      && (received.final.Failed? ==> outcome == Aborted(ReadFailed(received.final.error)))
    ensures created.Success? ==> forall u <- updates :: u == created.value.(message := u.message)
    ensures outcome.Done? ==>
      Messages(updates) == Progress(Pieces(received)) + [CommandAnswer(p, ParseCommand(args.command).value, exchange, decode).value]
    ensures outcome.Aborted? && outcome.failure.ReadFailed? ==> Messages(updates) == Progress(Pieces(received))
  {
    placeholder, request, updates := None, None, [];
    if Text.TrimSpace(args.command) == Trigger {
      return Rejected(NoMessage), placeholder, request, updates;
    }
    var message := Text.TrimPrefix(args.command, TriggerAndSpace);
    if message == [] {
      return Rejected(EmptyMessage), placeholder, request, updates;
    }
    placeholder := Some(Post([], args.userId, args.channelId, [], Typing));
    if created.Failure? {
      return Aborted(CreateFailed(created.error)), placeholder, request, updates;
    }
    var createdPost := created.value;
    if p.configuration == null {
      return Panicked, placeholder, request, updates;
    }
    var apiKey, agentId := p.configuration.console.muChatApiKey, p.configuration.console.agentId;
    if !exchange.Unbuildable? {
      request := Some(MuChat.BuildRequest(apiKey, agentId, message, true));
    }
    var answer := CommandAnswer(p, message, exchange, decode);
    if answer.Failure? {
      return Aborted(AgentFailed(answer.error)), placeholder, request, updates;
    }
    var responseText;
    responseText, updates := PushChunks(createdPost, Pieces(received));
    if received.final.Failed? {
      return Aborted(ReadFailed(received.final.error)), placeholder, request, updates;
    }
    updates := updates + [createdPost.(message := responseText)];
    outcome := Done;
  }

  /** When the stream delivers the whole answer, the post ends up holding
      exactly the answer text, neither trimmed nor replaced when blank, and
      every message pushed before it is a prefix of it. */
  lemma FinalMessageIsWholeAnswer(messages: seq<string>, received: Reader, text: string)
    requires Delivers(received, text)
    requires messages == Progress(Pieces(received)) + [ReadText(received)]
    ensures messages[|messages| - 1] == text
    ensures forall k :: 0 <= k < |messages| - 1 ==> Text.HasPrefix(text, messages[k])
  {
    var progress := Progress(Pieces(received));
    ProgressGrows(Pieces(received));
    forall k | 0 <= k < |messages| - 1 ensures Text.HasPrefix(text, messages[k]) {
      PrefixOfLast(progress, k);
    }
  }

  /** Whether or not the stream reaches its end, every message pushed
      while reading is a prefix of MuChat's answer. */
  lemma PushedMessagesArePrefixes(received: Reader, answer: string)
    requires Streams(received, answer)
    ensures forall m <- Progress(Pieces(received)) :: Text.HasPrefix(answer, m)
  {
    var progress := Progress(Pieces(received));
    ProgressGrows(Pieces(received));
    forall m <- progress ensures Text.HasPrefix(answer, m) {
      var k :| 0 <= k < |progress| && progress[k] == m;
      PrefixOfLast(progress, k);
    }
  }

  lemma {:induction false} PrefixOfLast(progress: seq<string>, k: nat)
    requires k < |progress|
    requires forall j :: 0 < j < |progress| ==> Text.HasPrefix(progress[j], progress[j - 1])
    ensures Text.HasPrefix(progress[|progress| - 1], progress[k])
    decreases |progress| - k
  {
    if k < |progress| - 1 {
      PrefixOfLast(progress, k + 1);
      assert Text.HasPrefix(progress[k + 1], progress[k]);
    }
  }
}
