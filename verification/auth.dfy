/** The `requireAuth` middleware: from the Authorization header to an active agent. */
module Auth {
  import opened Wrappers
  import opened State

  const BearerPrefix: string := "Bearer "

  /** The api_key carried by a `Bearer ` header.  The header is required to
      start with the prefix, so replacing the first occurrence of the prefix
      by nothing drops exactly the leading seven characters. */
  function BearerKey(header: Option<string>): (r: Option<Key>)
    ensures r.Some? <==> header.Some? && |BearerPrefix| <= |header.value| && header.value[..|BearerPrefix|] == BearerPrefix
    ensures r.Some? ==> header.value == BearerPrefix + r.value
  {
    if header.Some? && |BearerPrefix| <= |header.value| && header.value[..|BearerPrefix|] == BearerPrefix
    then
      assert header.value == header.value[..|BearerPrefix|] + header.value[|BearerPrefix|..];
      Some(header.value[|BearerPrefix|..])
    else None
  }

  /** Presenting a key as `Bearer <key>` gives the key back. */
  lemma BearerKeyRoundTrip(key: Key)
    ensures BearerKey(Some(BearerPrefix + key)) == Some(key)
  {
  }

  /** The gate: the position of the authenticated agent, or the 401/403 error. */
  function RequireAuth(agents: seq<Agent>, header: Option<string>): (r: Result<nat, Error>)
    ensures r == Failure(MissingAuthorization) <==> BearerKey(header).None?
    ensures r == Failure(InvalidApiKey) <==>
      BearerKey(header).Some? && forall j :: 0 <= j < |agents| ==> agents[j].apiKey != BearerKey(header).value
    ensures r == Failure(NotVerified) <==>
      BearerKey(header).Some? && AgentByKey(agents, BearerKey(header).value).Some?
      && agents[AgentByKey(agents, BearerKey(header).value).value].status != Active
    ensures r.Success? ==>
      && BearerKey(header).Some?
      && r.value < |agents|
      && agents[r.value].apiKey == BearerKey(header).value
      && agents[r.value].status == Active
      && r.value == AgentByKey(agents, BearerKey(header).value).value
    ensures r.Failure? ==> r.error in {MissingAuthorization, InvalidApiKey, NotVerified}
  {
    match BearerKey(header)
    case None => Failure(MissingAuthorization)
    case Some(key) =>
      match AgentByKey(agents, key)
      case None => Failure(InvalidApiKey)
      case Some(i) => if agents[i].status != Active then Failure(NotVerified) else Success(i)
  }

  /** When api_keys are unique, the gate admits a well-formed header exactly
      when an active agent holds its key, and then it names that agent. */
  lemma RequireAuthAdmitsExactlyActive(agents: seq<Agent>, header: Option<string>)
    requires forall i, j :: 0 <= i < j < |agents| ==> agents[i].apiKey != agents[j].apiKey
    requires BearerKey(header).Some?
    ensures RequireAuth(agents, header).Success? <==>
      exists i :: 0 <= i < |agents| && agents[i].apiKey == BearerKey(header).value && agents[i].status == Active
  {
  }

  /** The gate's refusals: 401 when no agent can be found for the header, 403
      when the agent found is still pending. */
  lemma GateStatus(agents: seq<Agent>, header: Option<string>)
    requires RequireAuth(agents, header).Failure?
    ensures HttpStatus(RequireAuth(agents, header).error) == 401 <==>
      BearerKey(header).None? || forall j :: 0 <= j < |agents| ==> agents[j].apiKey != BearerKey(header).value
    ensures HttpStatus(RequireAuth(agents, header).error) == 403 <==>
      BearerKey(header).Some? && exists j :: 0 <= j < |agents| && agents[j].apiKey == BearerKey(header).value
  {
  }
}
