/** The three-field settings record declared in server/config.go: the
    MuChat API key, the agent identifier and the debug flag. This is a
    separate revision of the plugin's settings from the class modelled in
    module Settings; the two are kept apart rather than reconciled. */
module Config {
  import opened Wrappers

  datatype Configuration = Configuration(muChatApiKey: string, agentId: string, enableDebug: bool)

  /** The two ways a record can be invalid, in the order they are checked. */
  datatype ValidationError = EmptyApiKey | EmptyAgentId

  /** A copy of the record: every field carries over unchanged. */
  function Clone(c: Configuration): (r: Configuration)
    ensures r.muChatApiKey == c.muChatApiKey && r.agentId == c.agentId && r.enableDebug == c.enableDebug
  {
    Configuration(c.muChatApiKey, c.agentId, c.enableDebug)
  }

  /** No error exactly when both the key and the agent id are present; the
      key is checked first, so a record missing both reports the key. */
  function IsValid(c: Configuration): (r: Option<ValidationError>)
    ensures r == None <==> c.muChatApiKey != [] && c.agentId != []
    ensures c.muChatApiKey == [] ==> r == Some(EmptyApiKey)
    ensures c.muChatApiKey != [] && c.agentId == [] ==> r == Some(EmptyAgentId)
  {
    if c.muChatApiKey == [] then Some(EmptyApiKey)
    else if c.agentId == [] then Some(EmptyAgentId)
    else None
  }
}
