/** The plugin object of server/plugin.go and server/configuration.go: its
    configuration pointer and bot identity, the id-list gates, and the
    handling of a new post, from the self-message check to the reply. */
module MuChatPlugin {
  import opened Wrappers
  import opened Host
  import Text
  import Settings
  import MuChat

  /** The size of the buffer MessageHasBeenPosted reads the answer with. */
  const ReadBuffer := 2048

  /** The reply posted when MuChat's answer is blank. */
  const Fallback := "متأسفم، پاسخی دریافت نشد."

  /** The text OnConfigurationChange puts in front of a load error. */
  const LoadFailed := "failed to load plugin configuration: "

  const BlockAll := "block_all"
  const AllowSelected := "allow_selected"
  const BlockSelected := "block_selected"

  /** contains: a linear search of the list for the id. */
  method Contains(list: seq<string>, id: string) returns (found: bool)
    ensures found <==> id in list
  {
    for i := 0 to |list|
      invariant id !in list[..i]
    {
      if list[i] == id {
        return true;
      }
      assert list[..i + 1] == list[..i] + [list[i]];
    }
    assert list[..|list|] == list;
    return false;
  }

  /** The access rule of one subject under an access mode. */
  predicate Allowed(id: string, mode: string, allow: seq<string>, block: seq<string>, isChannel: bool)
  {
    if mode == BlockAll then !isChannel
    else if mode == AllowSelected then id in allow
    else if mode == BlockSelected then id !in block
    else true
  }

  /** isAllowed: block_all shuts out channels only; allow_selected admits
      the ids of the allow list, block_selected everything but the ids of
      the block list; every other mode, allow_all included, admits all. */
  method IsAllowed(id: string, mode: string, allow: seq<string>, block: seq<string>, isChannel: bool)
    returns (allowed: bool)
    ensures allowed == Allowed(id, mode, allow, block, isChannel)
    ensures mode == BlockAll ==> (allowed <==> !isChannel)
    ensures mode == AllowSelected ==> (allowed <==> id in allow)
    ensures mode == BlockSelected ==> (allowed <==> id !in block)
    ensures mode != BlockAll && mode != AllowSelected && mode != BlockSelected ==> allowed
  {
    if mode == BlockAll {
      if isChannel {
        return false;
      }
      return true;
    } else if mode == AllowSelected {
      allowed := Contains(allow, id);
    } else if mode == BlockSelected {
      var blocked := Contains(block, id);
      allowed := !blocked;
    } else {
      allowed := true;
    }
  }

  /** The two ways a message can address the bot. */
  function UsernameMention(botUsername: string): string
  {
    "@" + botUsername
  }

  function IdMention(botUserId: string): string
  {
    "<@" + botUserId + ">"
  }

  predicate Mentioned(message: string, botUsername: string, botUserId: string)
  {
    Text.Contains(message, UsernameMention(botUsername)) || Text.Contains(message, IdMention(botUserId))
  }

  /** The question put to MuChat: outside direct messages, every mention
      of the bot is deleted first (the username form, then the id form);
      then white space is trimmed from both ends. */
  function Query(message: string, isDM: bool, botUsername: string, botUserId: string): string
  {
    if isDM then Text.TrimSpace(message)
    else Text.TrimSpace(Text.RemoveAll(Text.RemoveAll(message, UsernameMention(botUsername)), IdMention(botUserId)))
  }

  /** A direct message is asked as it stands, trimmed. In a channel the
      question is what lies between the username mentions, joined, then
      what of that lies between the id mentions, joined, then trimmed.
      Either way the question neither starts nor ends with white space. */
  lemma QueryShape(message: string, isDM: bool, botUsername: string, botUserId: string)
    ensures isDM ==> Query(message, isDM, botUsername, botUserId) == Text.TrimSpace(message)
    ensures !isDM ==> Query(message, isDM, botUsername, botUserId) == Text.TrimSpace(Text.Concat(
      Text.SplitOn(Text.Concat(Text.SplitOn(message, UsernameMention(botUsername))), IdMention(botUserId))))
    ensures var q := Query(message, isDM, botUsername, botUserId);
      q == [] || (!Text.IsSpace(q[0]) && !Text.IsSpace(q[|q| - 1]))
  {
    var withoutName := Text.RemoveAll(message, UsernameMention(botUsername));
    Text.RemoveAllIsConcat(message, UsernameMention(botUsername));
    Text.RemoveAllIsConcat(withoutName, IdMention(botUserId));
    if isDM {
      Text.TrimSpaceEnds(message);
    } else {
      Text.TrimSpaceEnds(Text.RemoveAll(withoutName, IdMention(botUserId)));
    }
  }

  /** In a channel, a message that mentions the bot in neither form is
      asked as it is, only trimmed. */
  lemma QueryWithoutMention(message: string, botUsername: string, botUserId: string)
    requires !Text.Contains(message, UsernameMention(botUsername)) && !Text.Contains(message, IdMention(botUserId))
    ensures Query(message, false, botUsername, botUserId) == Text.TrimSpace(message)
  {
    Text.RemoveAllChangesIffContains(message, UsernameMention(botUsername));
    Text.RemoveAllChangesIffContains(message, IdMention(botUserId));
  }

  /** The reply to post: the answer trimmed, or the fallback when nothing
      is left of it; so the reply is never empty. */
  function ReplyText(answer: string): (r: string)
    ensures r != []
    ensures Text.TrimSpace(answer) != [] ==> r == Text.TrimSpace(answer)
    ensures Text.AllSpace(answer) ==> r == Fallback
  {
    Text.TrimSpaceEnds(answer);
    var trimmed := Text.TrimSpace(answer);
    if trimmed == [] then Fallback else trimmed
  }

  /** The read loop of MessageHasBeenPosted: appends the data of every
      Read call, until the one that ends the reading, to a builder. */
  method ReadAll(r: Reader) returns (text: string)
    ensures text == ReadText(r)
  {
    text := "";
    var pieces := Pieces(r);
    for i := 0 to |pieces|
      invariant text == Text.Concat(pieces[..i])
    {
      var chunk := pieces[i];
      if |chunk| > 0 {
        text := text + chunk;
      }
      assert pieces[..i + 1][..i] == pieces[..i];
    }
    assert pieces[..|pieces|] == pieces;
  }

  /** Both access gates of a post in a channel under the given settings. */
  predicate GatesPass(cfg: Settings.Snapshot, post: Post, channel: Channel)
  {
    Allowed(channel.id, cfg.console.channelAccess, cfg.channelAllowIds, cfg.channelBlockIds, true)
    && Allowed(post.userId, cfg.console.userAccess, cfg.userAllowIds, cfg.userBlockIds, false)
  }

  class Plugin {
    var configuration: Settings.Configuration?
    var botUserId: string
    var botUsername: string

    /** A plugin whose bot is known and that has no configuration yet. */
    constructor (botUserId: string, botUsername: string)
      ensures configuration == null
      ensures this.botUserId == botUserId && this.botUsername == botUsername
    {
      configuration := null;
      this.botUserId, this.botUsername := botUserId, botUsername;
    }

    /** The settings in force: the stored configuration's, or the zero
        values when none is stored. */
    function CurrentSettings(): Settings.Snapshot
      reads this, configuration
    {
      if configuration == null then Settings.Empty else configuration.Value()
    }

    /** The question a post asks in a channel. */
    function QueryFor(post: Post, channel: Channel): string
      reads this
    {
      Query(post.message, channel.channelType == ChannelTypeDirect, botUsername, botUserId)
    }

    /** getConfiguration: the stored configuration, or a new zero-valued
        one (not stored) when there is none. */
    method GetConfiguration() returns (c: Settings.Configuration)
      ensures configuration != null ==> c == configuration
      ensures configuration == null ==> fresh(c)
      ensures c.Value() == CurrentSettings()
    {
      if configuration == null {
        c := new Settings.Configuration(Settings.Empty);
        return;
      }
      c := configuration;
    }

    /** setConfiguration: handing over the very object already stored is a
        programming error and panics, leaving the plugin as it was; anything
        else, nil included, becomes the stored configuration. */
    method SetConfiguration(c: Settings.Configuration?) returns (panicked: bool)
      modifies this
      ensures panicked <==> c != null && c == old(configuration)
      ensures configuration == (if panicked then old(configuration) else c)
      ensures botUserId == old(botUserId) && botUsername == old(botUsername)
    {
      if c != null && configuration == c {
        return true;
      }
      configuration := c;
      return false;
    }

    /** OnConfigurationChange: loads the console values into a new
        configuration, derives its id lists and stores it. A load error is
        returned, wrapped, and the stored configuration stays as it was. */
    method OnConfigurationChange(loaded: Result<Settings.Console, string>) returns (err: Option<string>)
      modifies this
      ensures loaded.Failure? ==> err == Some(LoadFailed + loaded.error) && configuration == old(configuration)
      ensures loaded.Success? ==> err == None && configuration != null && fresh(configuration)
      ensures loaded.Success? ==> configuration.Value().console == loaded.value && configuration.Derived()
      ensures botUserId == old(botUserId) && botUsername == old(botUsername)
    {
      var cfg := new Settings.Configuration(Settings.Empty);
      if loaded.Failure? {
        return Some(LoadFailed + loaded.error);
      }
      cfg.Load(loaded.value);
      cfg.Derive();
      var panicked := SetConfiguration(cfg);
      return None;
    }

    /** MessageHasBeenPosted: decides whether the post is a question for
        the bot and, if so, asks MuChat (without streaming) and replies in
        the post's thread. The host's answers come in as inputs: the
        channel lookup, whether the bot is a member, and the MuChat exchange
        with its JSON decoder. In non-stream mode Ask hands back a
        strings.Reader over the decoded answer, which is read here with a
        buffer of ReadBuffer characters. The outputs are the request Ask
        hands to the HTTP client (none when building it fails) and the
        reply posted. */
    method MessageHasBeenPosted(post: Post, channel: Result<Channel, string>, isMember: bool,
                                exchange: MuChat.Exchange, decode: string -> Option<string>)
      returns (request: Option<MuChat.Request>, reply: Option<Post>)
      ensures post.userId == botUserId ==> request == None && reply == None
      ensures request.Some? <==>
        post.userId != botUserId && channel.Success? && isMember
        && GatesPass(CurrentSettings(), post, channel.value)
        && (channel.value.channelType == ChannelTypeDirect || Mentioned(post.message, botUsername, botUserId))
        && QueryFor(post, channel.value) != []
        && !exchange.Unbuildable?
      ensures request.Some? ==> request.value == MuChat.BuildRequest(
        CurrentSettings().console.muChatApiKey, CurrentSettings().console.agentId, QueryFor(post, channel.value), false)
      ensures request.None? ==> reply == None
      ensures reply.Some? <==> request.Some? && MuChat.Ask(
        CurrentSettings().console.muChatApiKey, CurrentSettings().console.agentId, QueryFor(post, channel.value),
        false, exchange, decode).Success?
      ensures reply.Some? ==> reply.value == Post([], botUserId, post.channelId, post.id, ReplyText(MuChat.Ask(
        CurrentSettings().console.muChatApiKey, CurrentSettings().console.agentId, QueryFor(post, channel.value),
        false, exchange, decode).value))
    {
      request, reply := None, None;
      if post.userId == botUserId {
        return;
      }
      var cfg := GetConfiguration();
      if channel.Failure? {
        return;
      }
      var ch := channel.value;
      if !isMember {
        return;
      }
      var ok := IsAllowed(ch.id, cfg.console.channelAccess, cfg.channelAllowIds, cfg.channelBlockIds, true);
      if !ok {
        return;
      }
      ok := IsAllowed(post.userId, cfg.console.userAccess, cfg.userAllowIds, cfg.userBlockIds, false);
      if !ok {
        return;
      }
      var isDM := ch.channelType == ChannelTypeDirect;
      var mentioned := Text.Contains(post.message, UsernameMention(botUsername)) || Text.Contains(post.message, IdMention(botUserId));
      if !isDM && !mentioned {
        return;
      }
      var message := post.message;
      if !isDM {
        message := Text.RemoveAll(message, UsernameMention(botUsername));
        message := Text.RemoveAll(message, IdMention(botUserId));
      }
      message := Text.TrimSpace(message);
      if message == [] {
        return;
      }
      if !exchange.Unbuildable? {
        request := Some(MuChat.BuildRequest(cfg.console.muChatApiKey, cfg.console.agentId, message, false));
      }
      var answer := MuChat.Ask(cfg.console.muChatApiKey, cfg.console.agentId, message, false, exchange, decode);
      if answer.Failure? {
        return;
      }
      var rc := StringReader(answer.value, ReadBuffer);
      StringReaderDelivers(answer.value, ReadBuffer);
      var text := ReadAll(rc);
      if rc.final.Failed? {
        return;
      }
      var r := Text.TrimSpace(text);
      if r == [] {
        r := Fallback;
      }
      reply := Some(Post([], botUserId, post.channelId, post.id, r));
    }
  }
}
