/** The consistency the handlers keep between agents, posts, the vote ledger
    and the puzzle map, and its preservation by every state-changing handler. */
module Invariants {
  import opened Wrappers
  import opened State
  import opened Auth
  import opened Registry
  import opened Posts
  import opened Votes

  predicate DistinctNames(agents: seq<Agent>)
  {
    forall i, j :: 0 <= i < j < |agents| ==> agents[i].name != agents[j].name
  }

  predicate DistinctKeys(agents: seq<Agent>)
  {
    forall i, j :: 0 <= i < j < |agents| ==> agents[i].apiKey != agents[j].apiKey
  }

  predicate DistinctAgentIds(agents: seq<Agent>)
  {
    forall i, j :: 0 <= i < j < |agents| ==> agents[i].id != agents[j].id
  }

  predicate DistinctPostIds(posts: seq<Post>)
  {
    forall i, j :: 0 <= i < j < |posts| ==> posts[i].id != posts[j].id
  }

  /** Every live puzzle belongs to an agent still pending verification. */
  predicate PuzzlesPending(s: Store)
  {
    forall k :: k in s.puzzles ==>
      exists i :: 0 <= i < |s.agents| && s.agents[i].apiKey == k && s.agents[i].status == PendingVerification
  }

  /** No (agent, post) pair is recorded twice. */
  predicate NoDuplicateVotes(votes: seq<Vote>)
  {
    forall i, j :: 0 <= i < j < |votes| ==>
      !(votes[i].agentId == votes[j].agentId && votes[i].postId == votes[j].postId)
  }

  /** Every vote was cast by an active agent on a post in the store. */
  predicate VotesResolve(s: Store)
  {
    forall k :: 0 <= k < |s.votes| ==> s.votes[k].agentId in ActiveIds(s.agents) && s.votes[k].postId in PostIds(s.posts)
  }

  /** Karma is the number of upvotes the agent has cast. */
  predicate KarmaIsUpvotesCast(s: Store)
  {
    forall i :: 0 <= i < |s.agents| ==> s.agents[i].karma == UpsBy(s.votes, s.agents[i].id)
  }

  /** post_count is the number of posts the agent has authored. */
  predicate PostCountIsAuthored(s: Store)
  {
    forall i :: 0 <= i < |s.agents| ==> s.agents[i].postCount == AuthoredBy(s.posts, s.agents[i].id)
  }

  /** The score a post started with: its seeded votes, or 0 for a POSTed post. */
  function SeedScore(seed: seq<Post>, id: PostId): int
  {
    match PostById(seed, id)
    case Some(j) => seed[j].votes
    case None => 0
  }

  /** A post's score is its starting score plus its upvotes minus its other votes. */
  predicate ScoreIsLedger(s: Store, seed: seq<Post>)
  {
    forall j :: 0 <= j < |s.posts| ==>
      s.posts[j].votes == SeedScore(seed, s.posts[j].id) + UpsOn(s.votes, s.posts[j].id) - DownsOn(s.votes, s.posts[j].id)
  }

  predicate Inv(s: Store, seed: seq<Post>)
  {
    && DistinctNames(s.agents)
    && DistinctKeys(s.agents)
    && DistinctAgentIds(s.agents)
    && DistinctPostIds(s.posts)
    && PuzzlesPending(s)
    && NoDuplicateVotes(s.votes)
    && VotesResolve(s)
    && KarmaIsUpvotesCast(s)
    && PostCountIsAuthored(s)
    && ScoreIsLedger(s, seed)
    && PostIds(seed) <= PostIds(s.posts)
  }

  /** The store at start-up: no agents, the seeded posts, no votes, no puzzles. */
  function Init(seed: seq<Post>): Store
  {
    Store([], seed, [], map[])
  }

  lemma InitInv(seed: seq<Post>)
    requires DistinctPostIds(seed)
    ensures Inv(Init(seed), seed)
  {
  }

  /** A minted api_key and agent id are fresh: no agent holds them and no post names the id as author. */
  predicate FreshAgent(s: Store, key: Key, id: AgentId)
  {
    && (forall i :: 0 <= i < |s.agents| ==> s.agents[i].apiKey != key && s.agents[i].id != id)
    && (forall j :: 0 <= j < |s.posts| ==> s.posts[j].agentId != id)
  }

  predicate FreshPost(s: Store, id: PostId)
  {
    forall j :: 0 <= j < |s.posts| ==> s.posts[j].id != id
  }

  // ----- frame relations between the agent and post lists before and after a handler

  /** Same agents in the same places with the same id, key and name. */
  predicate SameIdentities(a: seq<Agent>, a': seq<Agent>)
  {
    && |a'| == |a|
    && forall q :: 0 <= q < |a| ==> a'[q].id == a[q].id && a'[q].apiKey == a[q].apiKey && a'[q].name == a[q].name
  }

  /** Nobody loses the active status. */
  predicate ActiveKept(a: seq<Agent>, a': seq<Agent>)
  {
    |a'| == |a| && forall q :: 0 <= q < |a| && a[q].status == Active ==> a'[q].status == Active
  }

  predicate SameStatuses(a: seq<Agent>, a': seq<Agent>)
  {
    |a'| == |a| && forall q :: 0 <= q < |a| ==> a'[q].status == a[q].status
  }

  predicate SamePostIds(p: seq<Post>, p': seq<Post>)
  {
    |p'| == |p| && forall q :: 0 <= q < |p| ==> p'[q].id == p[q].id
  }

  lemma IdentitiesKeepDistinct(a: seq<Agent>, a': seq<Agent>)
    requires SameIdentities(a, a')
    requires DistinctNames(a) && DistinctKeys(a) && DistinctAgentIds(a)
    ensures DistinctNames(a') && DistinctKeys(a') && DistinctAgentIds(a')
  {
  }

  lemma ActiveIdsGrow(a: seq<Agent>, a': seq<Agent>)
    requires SameIdentities(a, a') && ActiveKept(a, a')
    ensures ActiveIds(a) <= ActiveIds(a')
  {
  }

  lemma SameStatusesKeepActiveIds(a: seq<Agent>, a': seq<Agent>)
    requires SameIdentities(a, a') && SameStatuses(a, a')
    ensures ActiveIds(a') == ActiveIds(a)
  {
    ActiveIdsGrow(a, a');
    ActiveIdsGrow(a', a);
  }

  lemma SamePostIdsKeep(p: seq<Post>, p': seq<Post>)
    requires SamePostIds(p, p')
    ensures PostIds(p') == PostIds(p)
    ensures DistinctPostIds(p) ==> DistinctPostIds(p')
  {
  }

  lemma PuzzlesPendingKept(s: Store, s': Store)
    requires PuzzlesPending(s)
    requires SameIdentities(s.agents, s'.agents) && SameStatuses(s.agents, s'.agents)
    requires s'.puzzles == s.puzzles
    ensures PuzzlesPending(s')
  {
  }

  lemma KarmaKept(s: Store, s': Store)
    requires KarmaIsUpvotesCast(s) && SameIdentities(s.agents, s'.agents) && s'.votes == s.votes
    requires forall q :: 0 <= q < |s.agents| ==> s'.agents[q].karma == s.agents[q].karma
    ensures KarmaIsUpvotesCast(s')
  {
  }

  lemma PostCountKept(s: Store, s': Store)
    requires PostCountIsAuthored(s) && SameIdentities(s.agents, s'.agents) && s'.posts == s.posts
    requires forall q :: 0 <= q < |s.agents| ==> s'.agents[q].postCount == s.agents[q].postCount
    ensures PostCountIsAuthored(s')
  {
  }

  // ----- registration

  lemma SnocAgentDistinct(a: seq<Agent>, x: Agent)
    requires DistinctNames(a) && DistinctKeys(a) && DistinctAgentIds(a)
    requires forall i :: 0 <= i < |a| ==> a[i].name != x.name && a[i].apiKey != x.apiKey && a[i].id != x.id
    ensures DistinctNames(a + [x]) && DistinctKeys(a + [x]) && DistinctAgentIds(a + [x])
  {
  }

  lemma SnocPendingActiveIds(a: seq<Agent>, x: Agent)
    requires x.status == PendingVerification
    ensures ActiveIds(a + [x]) == ActiveIds(a)
  {
  }

  lemma StrangerCastNoVotes(s: Store, id: AgentId)
    requires VotesResolve(s)
    requires forall i :: 0 <= i < |s.agents| ==> s.agents[i].id != id
    ensures UpsBy(s.votes, id) == 0
  {
    forall k | 0 <= k < |s.votes| ensures s.votes[k].agentId != id {
      assert s.votes[k].agentId in ActiveIds(s.agents);
      var ag :| ag in s.agents && ag.status == Active && ag.id == s.votes[k].agentId;
    }
    NoUpsByStranger(s.votes, id);
  }

  lemma SnocAgentKarma(s: Store, x: Agent)
    requires KarmaIsUpvotesCast(s)
    requires x.karma == UpsBy(s.votes, x.id)
    ensures KarmaIsUpvotesCast(s.(agents := s.agents + [x]))
  {
  }

  lemma SnocAgentPostCount(s: Store, x: Agent)
    requires PostCountIsAuthored(s)
    requires x.postCount == AuthoredBy(s.posts, x.id)
    ensures PostCountIsAuthored(s.(agents := s.agents + [x]))
  {
  }

  lemma SnocAgentCounters(s: Store, x: Agent)
    requires VotesResolve(s) && KarmaIsUpvotesCast(s) && PostCountIsAuthored(s)
    requires x.karma == 0 && x.postCount == 0 && x.status == PendingVerification
    requires forall i :: 0 <= i < |s.agents| ==> s.agents[i].id != x.id
    requires forall j :: 0 <= j < |s.posts| ==> s.posts[j].agentId != x.id
    ensures VotesResolve(s.(agents := s.agents + [x]))
    ensures KarmaIsUpvotesCast(s.(agents := s.agents + [x]))
    ensures PostCountIsAuthored(s.(agents := s.agents + [x]))
  {
    SnocPendingActiveIds(s.agents, x);
    StrangerCastNoVotes(s, x.id);
    NoPostsByStranger(s.posts, x.id);
    SnocAgentKarma(s, x);
    SnocAgentPostCount(s, x);
  }

  lemma RegisterPuzzlesPending(s: Store, x: Agent, pz: Puzzle)
    requires PuzzlesPending(s)
    requires x.status == PendingVerification
    ensures PuzzlesPending(Store(s.agents + [x], s.posts, s.votes, s.puzzles[x.apiKey := pz]))
  {
    var s' := Store(s.agents + [x], s.posts, s.votes, s.puzzles[x.apiKey := pz]);
    forall k | k in s'.puzzles
      ensures exists i :: 0 <= i < |s'.agents| && s'.agents[i].apiKey == k && s'.agents[i].status == PendingVerification
    {
      if k == x.apiKey {
        assert s'.agents[|s.agents|] == x;
      } else {
        var i :| 0 <= i < |s.agents| && s.agents[i].apiKey == k && s.agents[i].status == PendingVerification;
        assert s'.agents[i] == s.agents[i];
      }
    }
  }

  lemma RegisterPreserves(s: Store, seed: seq<Post>, name: Option<string>, description: Option<string>,
                          model: Option<string>, ownerX: Option<string>, key: Key, id: AgentId, now: int, da: Draw, db: Draw)
    requires Inv(s, seed)
    requires FreshAgent(s, key, id)
    ensures Inv(Register(s, name, description, model, ownerX, key, id, now, da, db).store, seed)
  {
    var r := Register(s, name, description, model, ownerX, key, id, now, da, db);
    if r.result.Success? {
      var x := Agent(id, name.value, OrDefault(description, ""), OrDefault(model, "unknown"),
                     ownerX.value, key, PendingVerification, 0, 0, now);
      var pz := GeneratePuzzle(da, db, now);
      assert r.store == Store(s.agents + [x], s.posts, s.votes, s.puzzles[key := pz]);
      SnocAgentDistinct(s.agents, x);
      SnocAgentCounters(s, x);
      RegisterPuzzlesPending(s, x, pz);
    }
  }

  // ----- verification

  function Activate(s: Store, i: nat, key: Key): Store
    requires i < |s.agents|
  {
    s.(agents := s.agents[i := s.agents[i].(status := Active)], puzzles := s.puzzles - {key})
  }

  lemma ActivateFrame(s: Store, i: nat, key: Key)
    requires i < |s.agents|
    ensures SameIdentities(s.agents, Activate(s, i, key).agents) && ActiveKept(s.agents, Activate(s, i, key).agents)
    ensures forall q :: 0 <= q < |s.agents| ==>
      Activate(s, i, key).agents[q].karma == s.agents[q].karma && Activate(s, i, key).agents[q].postCount == s.agents[q].postCount
    ensures forall q :: 0 <= q < |s.agents| && q != i ==> Activate(s, i, key).agents[q] == s.agents[q]
    ensures Activate(s, i, key).posts == s.posts && Activate(s, i, key).votes == s.votes
  {
  }

  lemma ActivatePuzzlesPending(s: Store, i: nat, key: Key)
    requires PuzzlesPending(s) && DistinctKeys(s.agents)
    requires i < |s.agents| && s.agents[i].apiKey == key
    ensures PuzzlesPending(Activate(s, i, key))
  {
    var s' := Activate(s, i, key);
    ActivateFrame(s, i, key);
    forall k | k in s'.puzzles
      ensures exists q :: 0 <= q < |s'.agents| && s'.agents[q].apiKey == k && s'.agents[q].status == PendingVerification
    {
      var q :| 0 <= q < |s.agents| && s.agents[q].apiKey == k && s.agents[q].status == PendingVerification;
      assert q != i;
      assert s'.agents[q] == s.agents[q];
    }
  }

  lemma ActivatePreserves(s: Store, seed: seq<Post>, i: nat, key: Key)
    requires Inv(s, seed)
    requires i < |s.agents| && s.agents[i].apiKey == key
    ensures Inv(Activate(s, i, key), seed)
  {
    var s' := Activate(s, i, key);
    ActivateFrame(s, i, key);
    IdentitiesKeepDistinct(s.agents, s'.agents);
    ActiveIdsGrow(s.agents, s'.agents);
    ActivatePuzzlesPending(s, i, key);
    KarmaKept(s, s');
    PostCountKept(s, s');
  }

  lemma DropPuzzlePreserves(s: Store, seed: seq<Post>, key: Key)
    requires Inv(s, seed)
    ensures Inv(s.(puzzles := s.puzzles - {key}), seed)
  {
  }

  /** An active agent holds no puzzle, so verifying with its key finds none and changes nothing. */
  lemma ActiveKeyFindsNoPuzzle(s: Store, seed: seq<Post>, i: nat, answer: Option<int>, now: int)
    requires Inv(s, seed)
    requires i < |s.agents| && s.agents[i].status == Active
    ensures Verify(s, s.agents[i].apiKey, answer, now) == Reply(s, Failure(NoPuzzle))
  {
    var key := s.agents[i].apiKey;
    assert forall k :: 0 <= k < |s.agents| && s.agents[k].apiKey == key ==> s.agents[k].status == Active by {
      assert forall k :: 0 <= k < |s.agents| && s.agents[k].apiKey == key ==> k == i;
    }
    assert key !in s.puzzles;
    assert AgentByKey(s.agents, key).Some?;
  }

  lemma VerifyPreserves(s: Store, seed: seq<Post>, key: Key, answer: Option<int>, now: int)
    requires Inv(s, seed)
    ensures Inv(Verify(s, key, answer, now).store, seed)
  {
    var r := Verify(s, key, answer, now);
    if r.result.Success? {
      var i := AgentByKey(s.agents, key).value;
      assert r.store == Activate(s, i, key);
      ActivatePreserves(s, seed, i, key);
    } else if r.result == Failure(PuzzleExpired) {
      DropPuzzlePreserves(s, seed, key);
    }
  }

  // ----- posting

  function WithPost(s: Store, i: nat, p: Post): Store
    requires i < |s.agents|
  {
    s.(posts := [p] + s.posts, agents := s.agents[i := s.agents[i].(postCount := s.agents[i].postCount + 1)])
  }

  lemma PrependPostCount(s: Store, i: nat, p: Post)
    requires PostCountIsAuthored(s) && DistinctAgentIds(s.agents)
    requires i < |s.agents| && p.agentId == s.agents[i].id
    ensures PostCountIsAuthored(WithPost(s, i, p))
  {
  }

  lemma PrependPostScore(s: Store, seed: seq<Post>, i: nat, p: Post)
    requires ScoreIsLedger(s, seed) && VotesResolve(s) && PostIds(seed) <= PostIds(s.posts)
    requires i < |s.agents| && p.votes == 0
    requires forall j :: 0 <= j < |s.posts| ==> s.posts[j].id != p.id
    ensures ScoreIsLedger(WithPost(s, i, p), seed)
  {
    var s' := WithPost(s, i, p);
    assert p.id !in PostIds(s.posts);
    assert PostById(seed, p.id).None?;
    forall k | 0 <= k < |s.votes| ensures s.votes[k].postId != p.id {
      assert s.votes[k].postId in PostIds(s.posts);
    }
    NoVotesOnStranger(s.votes, p.id);
    forall q | 0 <= q < |s'.posts|
      ensures s'.posts[q].votes == SeedScore(seed, s'.posts[q].id) + UpsOn(s'.votes, s'.posts[q].id) - DownsOn(s'.votes, s'.posts[q].id)
    {
      if q > 0 {
        assert s'.posts[q] == s.posts[q - 1];
      }
    }
  }

  lemma PrependPostIds(s: Store, seed: seq<Post>, i: nat, p: Post)
    requires VotesResolve(s) && DistinctPostIds(s.posts) && PostIds(seed) <= PostIds(s.posts)
    requires i < |s.agents|
    requires forall j :: 0 <= j < |s.posts| ==> s.posts[j].id != p.id
    ensures PostIds(WithPost(s, i, p).posts) == PostIds(s.posts) + {p.id}
    ensures VotesResolve(WithPost(s, i, p))
    ensures DistinctPostIds(WithPost(s, i, p).posts)
    ensures PostIds(seed) <= PostIds(WithPost(s, i, p).posts)
  {
    var s' := WithPost(s, i, p);
    assert PostIds(s'.posts) == PostIds(s.posts) + {p.id};
    assert SameIdentities(s.agents, s'.agents) && SameStatuses(s.agents, s'.agents);
    SameStatusesKeepActiveIds(s.agents, s'.agents);
    assert forall q :: 0 < q < |s'.posts| ==> s'.posts[q] == s.posts[q - 1];
  }

  lemma WithPostFrame(s: Store, i: nat, p: Post)
    requires i < |s.agents|
    ensures SameIdentities(s.agents, WithPost(s, i, p).agents) && SameStatuses(s.agents, WithPost(s, i, p).agents)
    ensures forall q :: 0 <= q < |s.agents| ==> WithPost(s, i, p).agents[q].karma == s.agents[q].karma
    ensures WithPost(s, i, p).votes == s.votes && WithPost(s, i, p).puzzles == s.puzzles
  {
  }

  lemma WithPostPreserves(s: Store, seed: seq<Post>, i: nat, p: Post)
    requires Inv(s, seed)
    requires i < |s.agents| && p.agentId == s.agents[i].id && p.votes == 0
    requires forall j :: 0 <= j < |s.posts| ==> s.posts[j].id != p.id
    ensures Inv(WithPost(s, i, p), seed)
  {
    var s' := WithPost(s, i, p);
    PrependPostCount(s, i, p);
    PrependPostScore(s, seed, i, p);
    PrependPostIds(s, seed, i, p);
    WithPostFrame(s, i, p);
    IdentitiesKeepDistinct(s.agents, s'.agents);
    PuzzlesPendingKept(s, s');
    KarmaKept(s, s');
  }

  lemma CreatePostPreserves(s: Store, seed: seq<Post>, header: Option<string>, title: Option<string>,
                            body: Option<string>, subhub: Option<string>, id: PostId, now: int)
    requires Inv(s, seed)
    requires FreshPost(s, id)
    ensures Inv(CreatePost(s, header, title, body, subhub, id, now).store, seed)
  {
    var r := CreatePost(s, header, title, body, subhub, id, now);
    if r.result.Success? {
      var i := RequireAuth(s.agents, header).value;
      var p := r.result.value;
      assert r.store == WithPost(s, i, p);
      WithPostPreserves(s, seed, i, p);
    }
  }

  // ----- voting

  lemma VoteLedgerCounts(s: Store, seed: seq<Post>, i: nat, j: nat, direction: Option<string>)
    requires KarmaIsUpvotesCast(s) && ScoreIsLedger(s, seed)
    requires DistinctAgentIds(s.agents) && DistinctPostIds(s.posts)
    requires i < |s.agents| && j < |s.posts|
    ensures KarmaIsUpvotesCast(WithVote(s, i, j, direction)) && ScoreIsLedger(WithVote(s, i, j, direction), seed)
  {
    var v := Vote(s.agents[i].id, s.posts[j].id, direction);
    var s' := WithVote(s, i, j, direction);
    forall q | 0 <= q < |s'.agents|
      ensures s'.agents[q].karma == UpsBy(s'.votes, s'.agents[q].id)
    {
      CountsAfterVote(s.votes, v, s.agents[q].id, s.posts[j].id);
    }
    forall q | 0 <= q < |s'.posts|
      ensures s'.posts[q].votes == SeedScore(seed, s'.posts[q].id) + UpsOn(s'.votes, s'.posts[q].id) - DownsOn(s'.votes, s'.posts[q].id)
    {
      CountsAfterVote(s.votes, v, s.agents[i].id, s.posts[q].id);
    }
  }

  lemma SnocVoteResolves(s: Store, i: nat, j: nat, direction: Option<string>)
    requires VotesResolve(s) && NoDuplicateVotes(s.votes)
    requires i < |s.agents| && j < |s.posts| && s.agents[i].status == Active
    requires forall k :: 0 <= k < |s.votes| ==> !(s.votes[k].agentId == s.agents[i].id && s.votes[k].postId == s.posts[j].id)
    ensures
      var v := Vote(s.agents[i].id, s.posts[j].id, direction);
      VotesResolve(s.(votes := s.votes + [v])) && NoDuplicateVotes(s.votes + [v])
  {
  }

  function WithVote(s: Store, i: nat, j: nat, direction: Option<string>): Store
    requires i < |s.agents| && j < |s.posts|
  {
    Store(s.agents[i := s.agents[i].(karma := s.agents[i].karma + KarmaDelta(direction))],
          s.posts[j := s.posts[j].(votes := s.posts[j].votes + ScoreDelta(direction))],
          s.votes + [Vote(s.agents[i].id, s.posts[j].id, direction)], s.puzzles)
  }

  lemma WithVoteFrame(s: Store, i: nat, j: nat, direction: Option<string>)
    requires i < |s.agents| && j < |s.posts|
    ensures SameIdentities(s.agents, WithVote(s, i, j, direction).agents)
    ensures SameStatuses(s.agents, WithVote(s, i, j, direction).agents)
    ensures SamePostIds(s.posts, WithVote(s, i, j, direction).posts)
    ensures forall q :: 0 <= q < |s.posts| ==> WithVote(s, i, j, direction).posts[q].agentId == s.posts[q].agentId
    ensures forall q :: 0 <= q < |s.agents| ==> WithVote(s, i, j, direction).agents[q].postCount == s.agents[q].postCount
    ensures WithVote(s, i, j, direction).puzzles == s.puzzles
  {
  }

  lemma WithVoteResolves(s: Store, i: nat, j: nat, direction: Option<string>)
    requires VotesResolve(s) && NoDuplicateVotes(s.votes)
    requires i < |s.agents| && j < |s.posts| && s.agents[i].status == Active
    requires forall k :: 0 <= k < |s.votes| ==> !(s.votes[k].agentId == s.agents[i].id && s.votes[k].postId == s.posts[j].id)
    ensures VotesResolve(WithVote(s, i, j, direction)) && NoDuplicateVotes(WithVote(s, i, j, direction).votes)
  {
    var s' := WithVote(s, i, j, direction);
    SnocVoteResolves(s, i, j, direction);
    WithVoteFrame(s, i, j, direction);
    SameStatusesKeepActiveIds(s.agents, s'.agents);
    SamePostIdsKeep(s.posts, s'.posts);
  }

  lemma PostCountKeptByVote(s: Store, i: nat, j: nat, direction: Option<string>)
    requires PostCountIsAuthored(s)
    requires i < |s.agents| && j < |s.posts|
    ensures PostCountIsAuthored(WithVote(s, i, j, direction))
  {
    var s' := WithVote(s, i, j, direction);
    WithVoteFrame(s, i, j, direction);
    SamePostIdsKeep(s.posts, s'.posts);
    forall q | 0 <= q < |s'.agents| ensures s'.agents[q].postCount == AuthoredBy(s'.posts, s'.agents[q].id) {
      AuthoredIgnoresScores(s.posts, s'.posts, s.agents[q].id);
    }
  }

  lemma WithVotePreserves(s: Store, seed: seq<Post>, i: nat, j: nat, direction: Option<string>)
    requires Inv(s, seed)
    requires i < |s.agents| && j < |s.posts| && s.agents[i].status == Active
    requires forall k :: 0 <= k < |s.votes| ==> !(s.votes[k].agentId == s.agents[i].id && s.votes[k].postId == s.posts[j].id)
    ensures Inv(WithVote(s, i, j, direction), seed)
  {
    var s' := WithVote(s, i, j, direction);
    WithVoteResolves(s, i, j, direction);
    VoteLedgerCounts(s, seed, i, j, direction);
    WithVoteFrame(s, i, j, direction);
    IdentitiesKeepDistinct(s.agents, s'.agents);
    SamePostIdsKeep(s.posts, s'.posts);
    PuzzlesPendingKept(s, s');
    PostCountKeptByVote(s, i, j, direction);
  }

  lemma CastVotePreserves(s: Store, seed: seq<Post>, header: Option<string>, postId: PostId, direction: Option<string>)
    requires Inv(s, seed)
    ensures Inv(CastVote(s, header, postId, direction).store, seed)
  {
    var r := CastVote(s, header, postId, direction);
    if r.result.Success? {
      var i := RequireAuth(s.agents, header).value;
      var j := PostById(s.posts, postId).value;
      assert r.store == WithVote(s, i, j, direction);
      WithVotePreserves(s, seed, i, j, direction);
    }
  }
}
