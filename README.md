# MuChat plugin for Mattermost: a Dafny model

This project models the server side of a Mattermost plugin that connects chat
to a MuChat agent. It covers four parts:

- **Settings.** The System Console values are loaded into a configuration
  object. Four comma-separated id lists are derived from them. The plugin
  keeps a pointer to the current configuration.
- **Answering posts.** When a post arrives, the plugin decides whether it is
  a question for the bot. It checks that the post is not the bot's own and
  that the bot is a member of the channel. It applies the channel and user
  access gates. It requires a direct message or a mention of the bot. If all
  pass, it strips the mentions and trims the text, asks MuChat without
  streaming, and replies in the post's thread. A blank answer is replaced by
  a fixed fallback text.
- **The MuChat client.** This covers the request (endpoint URL, bearer
  token, and a JSON body holding the query and the stream flag) and the
  status classification: 403 first, then any status other than 200. In
  stream mode, only `data:` lines of the event stream count, and those that
  do not decode are skipped. A pump writes the answers into a pipe and stops
  at the first failed write.
- **The `/mu` command.** The argument is checked. A placeholder post is
  created. MuChat is asked in stream mode. The post is updated with the
  text received so far after every chunk, and once more with the whole text
  at the end.

Host calls become inputs, and what the plugin asks the host to do becomes
outputs. The inputs are the channel lookup, the membership check, the
loading of the stored settings, post creation, the HTTP exchange, the JSON
decoder, and, for `/mu`, the results of each Read call on the pipe. The
outputs are the request `Ask` hands to the HTTP client (none when building
it fails, as for an agent id that does not parse in a URL), the reply post,
the placeholder post and the sequence of updated posts.

The text a post's reply is made from is MuChat's own answer: in non-stream
mode `Ask` returns a `strings.Reader` over the decoded answer, and the model
builds that reader (`Host.StringReader`) and reads it with the 2048-character
buffer of `MessageHasBeenPosted`. For `/mu` the pipe's Read results stay an
input, because the pipe is not modelled: in the source each Read returns part
of a single write of the pump, at most 1024 bytes of it, and bytes are not
modelled. The Read results are constrained to hand out MuChat's answer in
order, and all of it when the pipe reaches end of input (`Host.Streams`).

Files:

- `wrappers.dfy`: Option and Result.
- `text.dfy`: the Go `strings` functions used. These are TrimSpace (with
  unicode.IsSpace), TrimPrefix, Contains, ReplaceAll with an empty
  replacement, Split and Join on one character or on a string, and
  concatenation. Split on a string is the reference that ReplaceAll is
  proved against.
- `config.dfy`: the three-field record of `server/config.go`.
- `configuration.dfy`: the settings class of `server/configuration.go` and
  its `split` helper.
- `host.dfy`: posts, channels, the reader and `strings.NewReader`.
- `muchat.dfy`: the client of `server/muchat_client.go`.
- `plugin.dfy`: the plugin object, the gates and `MessageHasBeenPosted`.
- `command.dfy`: `ExecuteCommand`.

Points where the model follows the code as written:

- The final update of `/mu` is the received text as it is. It is neither
  trimmed nor replaced by a fallback when blank.
- `MessageHasBeenPosted` asks MuChat in non-stream mode.
- `ExecuteCommand` reads the stored configuration without the nil check of
  `getConfiguration`, so it panics when no configuration is stored.
- A command that does not start with `"/mu "` (for instance `/mu` followed
  by a tab or a newline) is not cut. The whole command text is sent as the
  question.

`server/config.go` and `server/configuration.go` both declare a
`Configuration` type. They are kept apart as `Config.Configuration` (a
value) and `Settings.Configuration` (a class).

## Model

| member | source | states |
|---|---|---|
| Config.Clone | server/config.go:21-27 | the copy carries all three fields over unchanged |
| Config.IsValid | server/config.go:31-39 | no error exactly when key and agent id are both non-empty; an empty key is reported first, even when the agent id is empty too; otherwise an empty agent id is reported |
| Text.TrimSpaceEnds | server/configuration.go:86 | neither end of a trimmed string is white space, and the result is empty exactly when the input is all white space |
| Text.TrimSpaceShape | server/configuration.go:86 | the trimmed text is a slice of the input with only white space before and after it |
| Text.RemoveAllChangesIffContains | server/plugin.go:152-153 | deleting a non-empty token changes the text exactly when the token occurs in it |
| Text.JoinSplit | server/configuration.go:85 | joining the pieces of a split gives the original text back |
| Text.SplitPiecesHaveNoSeparator | server/configuration.go:85 | no piece of a split contains the separator |
| Text.SplitJoin | server/muchat_client.go:89-91 | splitting at a separator undoes joining with it, when no piece holds the separator |
| Text.JoinOnSplitOn | server/plugin.go:152-153 | putting the token back between the pieces of SplitOn gives the original text |
| Text.SplitOnPiecesLackToken | server/plugin.go:152-153 | no piece of SplitOn holds the token |
| Text.RemoveAllIsConcat | server/plugin.go:152-153 | ReplaceAll with an empty replacement keeps exactly the pieces between the token's leftmost non-overlapping occurrences, in order |
| Text.TrimPrefixRestores | server/command.go:32 | with the prefix present, prefix plus result gives the input back; otherwise the input is returned unchanged |
| Settings.SplitIds | server/configuration.go:83-92 | the loop builds exactly the id list of the field: trimmed, non-blank pieces, in order |
| Settings.IdsAreTrimmed | server/configuration.go:85-90 | no id is empty and every id equals its own TrimSpace |
| Settings.KeptPositions | server/configuration.go:85-89 | the i-th id is the trimmed piece at a strictly increasing position, so the ids keep the order of the pieces |
| Settings.NonBlankPieceKept | server/configuration.go:85-89 | every piece that is not blank after trimming yields an id |
| Settings.IdsOfEmptyIff | server/configuration.go:83-92 | a field yields no ids exactly when it holds only commas and white space (the empty field included) |
| Settings.IdsOfSingle | server/configuration.go:83-92 | a field with no comma yields the field trimmed, or nothing when it is blank |
| Settings.Configuration.constructor | server/configuration.go:17-38 | a new configuration holds the given values; with the zero values it is the struct `new(Configuration)` makes |
| Settings.Configuration.Load | server/configuration.go:77-78 | loading sets the console fields to the stored values and leaves the derived lists as they were |
| Settings.Configuration.Derive | server/configuration.go:94-97 | each derived list becomes the id list of its console field; the console fields are unchanged |
| Settings.Configuration.Clone | server/configuration.go:41-48 | a fresh object holding the same values as the original |
| MuChatPlugin.Contains | server/plugin.go:83-90 | true exactly when the id is an element of the list |
| MuChatPlugin.IsAllowed | server/plugin.go:92-106 | block_all refuses channels and admits everything else; allow_selected admits exactly the allow list; block_selected admits everything but the block list; any other mode admits all |
| MuChatPlugin.QueryShape | server/plugin.go:141-156 | a direct message is asked trimmed. In a channel the question is the pieces between username mentions, joined, then the pieces of that between id mentions, joined, then trimmed. The question never starts or ends with white space |
| MuChatPlugin.QueryWithoutMention | server/plugin.go:142-155 | in a channel, a message mentioning the bot in neither form is asked only trimmed |
| MuChatPlugin.ReplyText | server/plugin.go:187-190 | the reply is never empty; it is the trimmed answer when that is non-empty, and the fallback when the answer is all white space |
| MuChatPlugin.ReadAll | server/plugin.go:171-185 | the builder ends up holding the data of every Read call, in order |
| MuChatPlugin.Plugin.constructor | server/plugin.go:28-41 | a plugin with its bot identity and no stored configuration |
| MuChatPlugin.Plugin.GetConfiguration | server/configuration.go:52-60 | the stored configuration, or a fresh zero-valued one when none is stored |
| MuChatPlugin.Plugin.SetConfiguration | server/configuration.go:62-73 | panics, changing nothing, exactly when handed the non-nil object already stored; otherwise stores the argument |
| MuChatPlugin.Plugin.OnConfigurationChange | server/configuration.go:76-101 | a load error is returned wrapped and the stored configuration is kept; otherwise a fresh configuration holding the loaded values with derived lists is stored |
| MuChatPlugin.Plugin.MessageHasBeenPosted | server/plugin.go:111-198 | the bot's own posts get nothing. MuChat is asked exactly when the channel is found, the bot is a member, both gates pass, the post is a direct message or mentions the bot, and the question is non-empty; a request is built for it, without streaming, unless building fails. A reply comes exactly when Ask succeeds. It is the reply text of MuChat's answer, posted by the bot in the post's channel and thread |
| Host.StringReaderDelivers | server/muchat_client.go:111 | the reader over the decoded answer hands out exactly that answer and ends at EOF, whatever the buffer size |
| MuChat.QueryUrl | server/muchat_client.go:58 | the endpoint is the fixed prefix, the agent id and the `/query` suffix |
| MuChat.AgentOf | server/muchat_client.go:58 | any agent id read back from a URL rebuilds that URL |
| MuChat.AgentOfQueryUrl | server/muchat_client.go:58 | the agent id can be read back from its endpoint |
| MuChat.QueryUrlInjective | server/muchat_client.go:58 | two agents never share an endpoint |
| MuChat.BuildRequest | server/muchat_client.go:58-69 | POST to the agent's endpoint; the body holds exactly `query` and `stream`; the headers are the bearer token and the JSON content type |
| MuChat.CheckStatus | server/muchat_client.go:75-80 | no error exactly for 200; 403 is the forbidden error even though it is also not 200; any other status is reported with its code |
| MuChat.DropCR | server/muchat_client.go:89-91 | a scanned line is the raw line without its one trailing carriage return |
| Text.SplitLastPiece | server/muchat_client.go:89-91 | the last piece of a split is empty exactly when the text is empty or ends with the separator, which is when a scanner yields no final line |
| MuChat.ScanLinesPieces | server/muchat_client.go:89-91 | the lines are the newline-separated pieces of the body without one trailing carriage return each; there is one line fewer than pieces exactly when the body is empty or ends with a newline |
| MuChat.ScanTerminatedLines | server/muchat_client.go:89-91 | lines each followed by a newline are scanned back as they were, when none holds a newline or ends with a carriage return |
| MuChat.AnswersAppend | server/muchat_client.go:89-100 | the answers of two runs of lines, one after the other, are the answers of each run in order |
| MuChat.AnswersUpToPrefix | server/muchat_client.go:89-100 | the answers of the first lines are the first answers |
| MuChat.SkippedLineChangesNothing | server/muchat_client.go:92-94 | a non-`data:` line, or one whose remainder does not decode, can be added anywhere without changing the answers; the stream goes on past it |
| MuChat.AnswersComeFromDataLines | server/muchat_client.go:92-96 | every answer emitted is the decoding of some `data:` line |
| MuChat.AnswerOfDataLine | server/muchat_client.go:92-94 | a `data:` line contributes exactly what its remainder decodes to |
| MuChat.StoppedEarly | server/muchat_client.go:95-97 | when a write fails, what was written is a strict prefix of the answers |
| MuChat.Pump | server/muchat_client.go:89-100 | with no write failure, all answers are written in line order. Otherwise exactly the accepted number of first answers are written, and nothing after the failure |
| MuChat.Ask | server/muchat_client.go:57-112 | build and transport failures are returned, then the status classification. In stream mode the reader's text is the concatenated answers of the scanned body lines. Otherwise it is the decoded answer, or a decode error |
| MuChat.StreamExample | server/muchat_client.go:89-100 | the lines `data:` "1" and `data:` "2", decoding to "a" and "b", stream "ab" |
| MuChat.MalformedLineExample | server/muchat_client.go:92-94 | a `data:` line that does not decode, followed by one decoding to "a", streams "a" |
| MuChat.AskStreamExample | server/muchat_client.go:83-102 | a 200 response whose body is the two `data:` lines of the example, each ended by a newline, makes Ask answer "ab" |
| Command.ParseCommand | server/command.go:26-37 | a command trimming to `/mu` is refused with the no-message error. An empty command is refused with the empty-message error, and these are the only two refusals. Every other command is accepted, and its question is the non-empty text after `"/mu "`, or the whole command when it does not start with that |
| Command.ProgressGrows | server/command.go:64-75 | each pushed message extends the previous one, and the last is all the text received |
| Command.PushChunks | server/command.go:64-75 | the response text is the concatenation of all chunks; after each non-empty chunk the same post is sent with the text so far |
| Command.ExecuteCommand | server/command.go:25-95 | refusals create no post. The placeholder is created before MuChat is asked, and the command aborts with the creation error exactly when creating it fails. A missing configuration panics. Otherwise a request is built, unless building fails; an Ask error, that one included, aborts with that error and no update. When Ask succeeds, the command is done exactly when the pipe ends at EOF, and the updates are then the running texts followed by MuChat's whole answer. A read error aborts with that error, after the running texts only |
| Command.PushedMessagesArePrefixes | server/command.go:64-85 | every message pushed while reading is a prefix of MuChat's answer, whether or not the pipe reaches its end |
| Command.FinalMessageIsWholeAnswer | server/command.go:88-91 | when the stream delivers an answer, the final message is exactly that answer, untrimmed, and every earlier message is a prefix of it |

## Left out

- Logging (`server/logger.go`, `Configuration.LogDebug`, the `logError` and `logDebug` calls) is output plumbing. Its effects are not modelled.
- `OnActivate` (bot creation, command registration, the background job) and `GetCommand` (a constant record) are host set-up with no logic to model.
- Locks (`configurationLock`), the goroutine and `io.Pipe` of stream mode, and concurrent deliveries of posts are not modelled. The model is single-threaded, and the pump is a method run to completion.
- Deadlines, `context` cancellation and the HTTP client timeout are not modelled. Neither is the HTTP transport; its outcome is the `Exchange` input.
- JSON encoding and decoding are not modelled. The request body is a map of JSON values, and decoding is a partial function parameter. The same `decode` stands for `json.Unmarshal` of a line and `json.NewDecoder(...).Decode` of a body, although the latter ignores trailing data.
- The scanner's 64 KiB line limit and its read errors are not modelled. Either one ends the pump early in the source.
- Bytes and UTF-8 are not modelled: strings are sequences of code points, and the 2048-byte read buffer of `MessageHasBeenPosted` holds 2048 characters. The pipe of `/mu` is not modelled: each of its Read results returns part of one write of the pump, at most 1024 bytes of it, and the model takes those results as an input constrained by `Host.Streams`.
- Host errors that the code only logs (a failed `UpdatePost`, a failed reply `CreatePost`) are not inputs, because they change nothing.
- The nine console fields of `Settings.Configuration` are grouped in one `console` value.
- Settings.Configuration.Clone: the id lists are Dafny sequences, which are values. So "freshly allocated slices" reduces to the fresh object.
- MuChatPlugin.Plugin.SetConfiguration: the `NumField() == 0` early return is not modelled. The struct has thirteen fields, so it is never taken.
- MuChat.Ask: the stream-mode value is the text the reader carries when no write to the pipe fails. The consumers in the plugin never close the reader early, so no write fails for them. `Pump` models the failing case on its own.
