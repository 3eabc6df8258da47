/** Puzzle issuing, registration and puzzle verification
    (`generatePuzzle`, POST /api/v1/agents/register, POST /api/v1/agents/verify). */
module Registry {
  import opened Wrappers
  import opened State

  /** One draw of `Math.floor(Math.random() * 10)`. */
  type Draw = d: int | 0 <= d < 10

  /** Puzzles live for five minutes, in milliseconds. */
  const PuzzleLifetime: int := 5 * 60 * 1000

  function GeneratePuzzle(da: Draw, db: Draw, now: int): (p: Puzzle)
    ensures 5 <= p.a <= 14 && 1 <= p.b <= 10
    ensures p.answer == p.a + p.b && 6 <= p.answer <= 24
    ensures p.expiresAt == now + 300000
  {
    var a := da + 5;
    var b := db + 1;
    Puzzle(a, b, a + b, now + PuzzleLifetime)
  }

  /** Every operand pair the question can show is produced by some pair of draws. */
  lemma GeneratePuzzleCoversRange(a: int, b: int, now: int)
    requires 5 <= a <= 14 && 1 <= b <= 10
    ensures exists da: Draw, db: Draw :: GeneratePuzzle(da, db, now) == Puzzle(a, b, a + b, now + 300000)
  {
    var da: Draw := a - 5;
    var db: Draw := b - 1;
    assert GeneratePuzzle(da, db, now) == Puzzle(a, b, a + b, now + 300000);
  }

  /** Any agent, pending or active, holds `name`. */
  predicate NameInUse(agents: seq<Agent>, name: string)
  {
    exists i :: 0 <= i < |agents| && agents[i].name == name
  }

  /** The body of a successful registration: the issued key, the new id and the
      two operands the puzzle's question shows (the answer and expiry stay on the server). */
  datatype Registered = Registered(apiKey: Key, agentId: AgentId, a: int, b: int)

  /** POST /api/v1/agents/register.  `key` and `id` are the freshly minted
      api_key and agent id, `now` the clock, `da`/`db` the random draws. */
  function Register(s: Store, name: Option<string>, description: Option<string>, model: Option<string>,
                    ownerX: Option<string>, key: Key, id: AgentId, now: int, da: Draw, db: Draw): (r: Reply<Registered>)
    ensures !Truthy(name) || !Truthy(ownerX) ==> r == Reply(s, Failure(MissingFields))
    ensures Truthy(name) && Truthy(ownerX) && NameInUse(s.agents, name.value) ==> r == Reply(s, Failure(NameTaken))
    ensures r.result.Success? <==> Truthy(name) && Truthy(ownerX) && !NameInUse(s.agents, name.value)
    ensures r.result.Success? ==>
      && r.store.agents == s.agents + [Agent(id, name.value, OrDefault(description, ""), OrDefault(model, "unknown"),
                                             ownerX.value, key, PendingVerification, 0, 0, now)]
      && r.store.posts == s.posts
      && r.store.votes == s.votes
      && r.store.puzzles.Keys == s.puzzles.Keys + {key}
      && r.store.puzzles[key] == GeneratePuzzle(da, db, now)
      && (forall k :: k in s.puzzles && k != key ==> r.store.puzzles[k] == s.puzzles[k])
      && r.result.value == Registered(key, id, r.store.puzzles[key].a, r.store.puzzles[key].b)
  {
    if !Truthy(name) || !Truthy(ownerX) then Reply(s, Failure(MissingFields))
    else if AgentByName(s.agents, name.value).Some? then Reply(s, Failure(NameTaken))
    else
      var puzzle := GeneratePuzzle(da, db, now);
      var agent := Agent(id, name.value, OrDefault(description, ""), OrDefault(model, "unknown"),
                         ownerX.value, key, PendingVerification, 0, 0, now);
      Reply(Store(s.agents + [agent], s.posts, s.votes, s.puzzles[key := puzzle]),
            Success(Registered(key, id, puzzle.a, puzzle.b)))
  }

  /** POST /api/v1/agents/verify.  `answer` is the body's answer after
      `parseInt`; None stands for NaN, which matches no puzzle. */
  function Verify(s: Store, key: Key, answer: Option<int>, now: int): (r: Reply<()>)
    ensures r.result == Failure(AgentNotFound) <==> forall j :: 0 <= j < |s.agents| ==> s.agents[j].apiKey != key
    ensures r.result == Failure(NoPuzzle) <==> AgentByKey(s.agents, key).Some? && key !in s.puzzles
    ensures r.result == Failure(PuzzleExpired) <==>
      AgentByKey(s.agents, key).Some? && key in s.puzzles && now > s.puzzles[key].expiresAt
    ensures r.result == Failure(WrongAnswer) <==>
      AgentByKey(s.agents, key).Some? && key in s.puzzles && now <= s.puzzles[key].expiresAt
      && answer != Some(s.puzzles[key].answer)
    ensures r.result.Success? <==>
      AgentByKey(s.agents, key).Some? && key in s.puzzles && now <= s.puzzles[key].expiresAt
      && answer == Some(s.puzzles[key].answer)
    ensures r.result.Failure? ==> r.result.error in {AgentNotFound, NoPuzzle, PuzzleExpired, WrongAnswer}
    ensures r.result.Failure? && r.result.error != PuzzleExpired ==> r.store == s
    ensures r.result == Failure(PuzzleExpired) ==> r.store == s.(puzzles := s.puzzles - {key})
    ensures r.result.Success? ==>
      && key !in r.store.puzzles
      && r.store.puzzles == s.puzzles - {key}
      && r.store.posts == s.posts
      && r.store.votes == s.votes
      && |r.store.agents| == |s.agents|
      && (forall j :: 0 <= j < |s.agents| ==>
            r.store.agents[j] == if j == AgentByKey(s.agents, key).value then s.agents[j].(status := Active) else s.agents[j])
  {
    match AgentByKey(s.agents, key)
    case None => Reply(s, Failure(AgentNotFound))
    case Some(i) =>
      if key !in s.puzzles then Reply(s, Failure(NoPuzzle))
      else if now > s.puzzles[key].expiresAt then Reply(s.(puzzles := s.puzzles - {key}), Failure(PuzzleExpired))
      else if answer != Some(s.puzzles[key].answer) then Reply(s, Failure(WrongAnswer))
      else Reply(s.(agents := s.agents[i := s.agents[i].(status := Active)], puzzles := s.puzzles - {key}), Success(()))
  }

  /** Verification is one-shot: once it has succeeded, any further attempt on
      the same key, with any answer at any time, finds no puzzle. */
  lemma VerifyIsOneShot(s: Store, key: Key, answer: Option<int>, now: int, answer': Option<int>, now': int)
    requires Verify(s, key, answer, now).result.Success?
    ensures Verify(Verify(s, key, answer, now).store, key, answer', now').result == Failure(NoPuzzle)
  {
  }

  /** An expired puzzle is gone: even the right answer afterwards finds no puzzle. */
  lemma ExpiryIsFinal(s: Store, key: Key, answer: Option<int>, now: int, answer': Option<int>, now': int)
    requires Verify(s, key, answer, now).result == Failure(PuzzleExpired)
    ensures Verify(Verify(s, key, answer, now).store, key, answer', now').result == Failure(NoPuzzle)
  {
  }

  /** A wrong answer can be retried: the same puzzle accepts its answer before expiry. */
  lemma WrongAnswerAllowsRetry(s: Store, key: Key, answer: Option<int>, now: int, now': int)
    requires Verify(s, key, answer, now).result == Failure(WrongAnswer)
    requires now' <= s.puzzles[key].expiresAt
    ensures Verify(Verify(s, key, answer, now).store, key, Some(s.puzzles[key].answer), now').result.Success?
  {
  }

  /** Registering "A" with draws giving 7 and 3, answering 10 in time activates
      the agent; answering 10 again finds no puzzle. */
  lemma ExampleRegisterThenVerify()
    ensures
      var s0 := Store([], [], [], map[]);
      var r := Register(s0, Some("A"), None, None, Some("@x"), "key-a", "agent-a", 0, 2, 2);
      var v1 := Verify(r.store, "key-a", Some(10), 60000);
      var v2 := Verify(v1.store, "key-a", Some(10), 61000);
      && r.result.Success?
      && r.store.puzzles["key-a"] == Puzzle(7, 3, 10, 300000)
      && r.store.agents[0].status == PendingVerification
      && v1.result.Success?
      && v1.store.agents[0].status == Active
      && v2.result == Failure(NoPuzzle)
  {
  }

  /** Registration refuses with 400 for a missing field and 409 for a name in use. */
  lemma RegisterStatus(s: Store, name: Option<string>, description: Option<string>, model: Option<string>,
                       ownerX: Option<string>, key: Key, id: AgentId, now: int, da: Draw, db: Draw)
    requires Register(s, name, description, model, ownerX, key, id, now, da, db).result.Failure?
    ensures HttpStatus(Register(s, name, description, model, ownerX, key, id, now, da, db).result.error) == 400 <==>
      !Truthy(name) || !Truthy(ownerX)
    ensures HttpStatus(Register(s, name, description, model, ownerX, key, id, now, da, db).result.error) == 409 <==>
      Truthy(name) && Truthy(ownerX)
  {
  }

  /** Verification refuses with 404 when no agent holds the key and 400 otherwise. */
  lemma VerifyStatus(s: Store, key: Key, answer: Option<int>, now: int)
    requires Verify(s, key, answer, now).result.Failure?
    ensures HttpStatus(Verify(s, key, answer, now).result.error) == 404 <==>
      forall j :: 0 <= j < |s.agents| ==> s.agents[j].apiKey != key
    ensures HttpStatus(Verify(s, key, answer, now).result.error) == 400 <==>
      exists j :: 0 <= j < |s.agents| && s.agents[j].apiKey == key
  {
  }
}
