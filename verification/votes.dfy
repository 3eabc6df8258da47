/** POST /api/v1/posts/:id/vote: the voting ledger. */
module Votes {
  import opened Wrappers
  import opened State
  import opened Auth

  /** `direction === 'up' ? 1 : -1` */
  function ScoreDelta(direction: Option<string>): int
  {
    if IsUp(direction) then 1 else -1
  }

  /** `direction === 'up' ? 1 : 0` */
  function KarmaDelta(direction: Option<string>): int
  {
    if IsUp(direction) then 1 else 0
  }

  /** The vote handler behind the auth gate; on success it answers the post's new score. */
  function CastVote(s: Store, header: Option<string>, postId: PostId, direction: Option<string>): (r: Reply<int>)
    ensures RequireAuth(s.agents, header).Failure? ==> r == Reply(s, Failure(RequireAuth(s.agents, header).error))
    ensures RequireAuth(s.agents, header).Success? && (forall j :: 0 <= j < |s.posts| ==> s.posts[j].id != postId) ==>
      r == Reply(s, Failure(PostNotFound))
    ensures r.result == Failure(AlreadyVoted) <==>
      && RequireAuth(s.agents, header).Success?
      && PostById(s.posts, postId).Some?
      && exists k :: 0 <= k < |s.votes| && s.votes[k].agentId == s.agents[RequireAuth(s.agents, header).value].id
                                        && s.votes[k].postId == postId
    ensures r.result.Success? <==>
      && RequireAuth(s.agents, header).Success?
      && PostById(s.posts, postId).Some?
      && VoteOf(s.votes, s.agents[RequireAuth(s.agents, header).value].id, postId).None?
    ensures r.result.Failure? ==> r.store == s
    ensures r.result.Success? ==>
      var i := RequireAuth(s.agents, header).value;
      var j := PostById(s.posts, postId).value;
      && r.store.votes == s.votes + [Vote(s.agents[i].id, postId, direction)]
      && |r.store.posts| == |s.posts|
      && r.store.posts[j] == s.posts[j].(votes := s.posts[j].votes + (if direction == Some("up") then 1 else -1))
      && (forall q :: 0 <= q < |s.posts| && q != j ==> r.store.posts[q] == s.posts[q])
      && |r.store.agents| == |s.agents|
      && r.store.agents[i] == s.agents[i].(karma := s.agents[i].karma + (if direction == Some("up") then 1 else 0))
      && (forall q :: 0 <= q < |s.agents| && q != i ==> r.store.agents[q] == s.agents[q])
      && r.store.puzzles == s.puzzles
      && r.result.value == r.store.posts[j].votes
  {
    match RequireAuth(s.agents, header)
    case Failure(e) => Reply(s, Failure(e))
    case Success(i) =>
      match PostById(s.posts, postId)
      case None => Reply(s, Failure(PostNotFound))
      case Some(j) =>
        var voter := s.agents[i];
        if VoteOf(s.votes, voter.id, postId).Some? then Reply(s, Failure(AlreadyVoted))
        else
          var post := s.posts[j].(votes := s.posts[j].votes + ScoreDelta(direction));
          Reply(Store(s.agents[i := voter.(karma := voter.karma + KarmaDelta(direction))],
                      s.posts[j := post],
                      s.votes + [Vote(voter.id, postId, direction)],
                      s.puzzles),
                Success(post.votes))
  }

  /** The gate reads only keys and statuses, so a vote's karma change leaves it as it was. */
  lemma GateIgnoresCounters(agents: seq<Agent>, agents': seq<Agent>, header: Option<string>)
    requires |agents'| == |agents|
    requires forall q :: 0 <= q < |agents| ==> agents'[q].apiKey == agents[q].apiKey && agents'[q].status == agents[q].status
    ensures RequireAuth(agents', header) == RequireAuth(agents, header)
  {
    if BearerKey(header).Some? {
      var key := BearerKey(header).value;
      assert AgentByKey(agents', key) == AgentByKey(agents, key);
    }
  }

  /** A second vote by the same key on the same post is refused and changes nothing,
      whatever its direction. */
  lemma SecondVoteRefused(s: Store, header: Option<string>, postId: PostId, d1: Option<string>, d2: Option<string>)
    requires CastVote(s, header, postId, d1).result.Success?
    ensures
      var s' := CastVote(s, header, postId, d1).store;
      CastVote(s', header, postId, d2) == Reply(s', Failure(AlreadyVoted))
  {
    var s' := CastVote(s, header, postId, d1).store;
    var i := RequireAuth(s.agents, header).value;
    GateIgnoresCounters(s.agents, s'.agents, header);
    assert s'.votes[|s.votes|] == Vote(s.agents[i].id, postId, d1);
  }

  /** Past the gate, a vote is refused with 404 for an unknown post and 400 for a repeat. */
  lemma VoteStatus(s: Store, header: Option<string>, postId: PostId, direction: Option<string>)
    requires RequireAuth(s.agents, header).Success?
    requires CastVote(s, header, postId, direction).result.Failure?
    ensures HttpStatus(CastVote(s, header, postId, direction).result.error) == 404 <==> PostById(s.posts, postId).None?
    ensures HttpStatus(CastVote(s, header, postId, direction).result.error) == 400 <==> PostById(s.posts, postId).Some?
  {
  }
}
