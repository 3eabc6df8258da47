/** The whole server as a transition system: each request runs one handler
    to completion on the store (Node runs handlers one at a time). */
module Server {
  import opened Wrappers
  import opened State
  import opened Registry
  import opened Posts
  import opened Votes
  import opened Invariants
  import opened Views
  import opened Auth

  /** A request together with what the environment supplies for it: the
      clock, freshly minted keys and ids, and the random draws. */
  datatype Request =
    | RegisterAgent(name: Option<string>, description: Option<string>, model: Option<string>,
                    ownerX: Option<string>, key: Key, id: AgentId, now: int, da: Draw, db: Draw)
    | VerifyAgent(apiKey: Key, answer: Option<int>, now: int)
    | SubmitPost(header: Option<string>, title: Option<string>, body: Option<string>,
                 subhub: Option<string>, postId: PostId, now: int)
    | VoteOnPost(header: Option<string>, votedPost: PostId, direction: Option<string>)
    | ReadOnly   // GET /, /skill.md, /posts, /heartbeat, /stats, /agents

  function Step(s: Store, req: Request): Store
  {
    match req
    case RegisterAgent(name, description, model, ownerX, key, id, now, da, db) =>
      Register(s, name, description, model, ownerX, key, id, now, da, db).store
    case VerifyAgent(key, answer, now) => Verify(s, key, answer, now).store
    case SubmitPost(header, title, body, subhub, id, now) => CreatePost(s, header, title, body, subhub, id, now).store
    case VoteOnPost(header, postId, direction) => CastVote(s, header, postId, direction).store
    case ReadOnly => s
  }

  /** uuidv4 never repeats: minted keys and ids are fresh in the store they enter. */
  predicate Admissible(s: Store, req: Request)
  {
    match req
    case RegisterAgent(_, _, _, _, key, id, _, _, _) => FreshAgent(s, key, id)
    case SubmitPost(_, _, _, _, id, _) => FreshPost(s, id)
    case _ => true
  }

  function Run(s: Store, reqs: seq<Request>): Store
    decreases |reqs|
  {
    if |reqs| == 0 then s else Run(Step(s, reqs[0]), reqs[1..])
  }

  predicate AdmissibleTrace(s: Store, reqs: seq<Request>)
    decreases |reqs|
  {
    |reqs| == 0 || (Admissible(s, reqs[0]) && AdmissibleTrace(Step(s, reqs[0]), reqs[1..]))
  }

  lemma StepPreservesInv(s: Store, seed: seq<Post>, req: Request)
    requires Inv(s, seed) && Admissible(s, req)
    ensures Inv(Step(s, req), seed)
  {
    match req
    case RegisterAgent(name, description, model, ownerX, key, id, now, da, db) =>
      RegisterPreserves(s, seed, name, description, model, ownerX, key, id, now, da, db);
    case VerifyAgent(key, answer, now) => VerifyPreserves(s, seed, key, answer, now);
    case SubmitPost(header, title, body, subhub, id, now) =>
      CreatePostPreserves(s, seed, header, title, body, subhub, id, now);
    case VoteOnPost(header, postId, direction) => CastVotePreserves(s, seed, header, postId, direction);
    case ReadOnly =>
  }

  lemma {:induction false} RunPreservesInv(s: Store, seed: seq<Post>, reqs: seq<Request>)
    requires Inv(s, seed) && AdmissibleTrace(s, reqs)
    ensures Inv(Run(s, reqs), seed)
    decreases |reqs|
  {
    if |reqs| > 0 {
      StepPreservesInv(s, seed, reqs[0]);
      RunPreservesInv(Step(s, reqs[0]), seed, reqs[1..]);
    }
  }

  /** What holds in every state the server can reach from start-up. */
  lemma Reachable(seed: seq<Post>, reqs: seq<Request>)
    requires DistinctPostIds(seed)
    requires AdmissibleTrace(Init(seed), reqs)
    ensures
      var s := Run(Init(seed), reqs);
      && Inv(s, seed)
      // agent names are pairwise distinct, pending or active
      && (forall i, j :: 0 <= i < j < |s.agents| ==> s.agents[i].name != s.agents[j].name)
      // no agent has voted twice on one post
      && (forall i, j :: 0 <= i < j < |s.votes| ==>
            !(s.votes[i].agentId == s.votes[j].agentId && s.votes[i].postId == s.votes[j].postId))
      // karma is the number of upvotes cast, so it is never negative
      && (forall i :: 0 <= i < |s.agents| ==> s.agents[i].karma == UpsBy(s.votes, s.agents[i].id) && s.agents[i].karma >= 0)
      // a POSTed post's score is its upvotes minus its other votes
      && (forall j :: 0 <= j < |s.posts| && s.posts[j].id !in PostIds(seed) ==>
            s.posts[j].votes == UpsOn(s.votes, s.posts[j].id) - DownsOn(s.votes, s.posts[j].id))
  {
    InitInv(seed);
    RunPreservesInv(Init(seed), seed, reqs);
    var s := Run(Init(seed), reqs);
    forall j | 0 <= j < |s.posts| && s.posts[j].id !in PostIds(seed)
      ensures s.posts[j].votes == UpsOn(s.votes, s.posts[j].id) - DownsOn(s.votes, s.posts[j].id)
    {
      var id := s.posts[j].id;
      assert forall k :: 0 <= k < |seed| ==> seed[k] in seed;
      assert SeedScore(seed, id) == 0;
    }
  }

  /** The store only grows: agents keep their place, identity and standing,
      karma and post counts never fall, and the ledger only gains records. */
  predicate Extends(s: Store, s': Store)
  {
    && |s.agents| <= |s'.agents|
    && (forall q :: 0 <= q < |s.agents| ==>
          && s'.agents[q].id == s.agents[q].id && s'.agents[q].name == s.agents[q].name
          && s'.agents[q].apiKey == s.agents[q].apiKey
          && s.agents[q].karma <= s'.agents[q].karma
          && s.agents[q].postCount <= s'.agents[q].postCount
          && (s.agents[q].status == Active ==> s'.agents[q].status == Active))
    && |s.votes| <= |s'.votes| && s'.votes[..|s.votes|] == s.votes
    && PostIds(s.posts) <= PostIds(s'.posts)
  }

  lemma RegisterExtends(s: Store, name: Option<string>, description: Option<string>, model: Option<string>,
                        ownerX: Option<string>, key: Key, id: AgentId, now: int, da: Draw, db: Draw)
    ensures Extends(s, Register(s, name, description, model, ownerX, key, id, now, da, db).store)
  {
    var s' := Register(s, name, description, model, ownerX, key, id, now, da, db).store;
    assert forall q :: 0 <= q < |s.agents| ==> s'.agents[q] == s.agents[q];
  }

  lemma VerifyExtends(s: Store, key: Key, answer: Option<int>, now: int)
    ensures Extends(s, Verify(s, key, answer, now).store)
  {
  }

  lemma CreatePostExtends(s: Store, header: Option<string>, title: Option<string>, body: Option<string>,
                          subhub: Option<string>, id: PostId, now: int)
    ensures Extends(s, CreatePost(s, header, title, body, subhub, id, now).store)
  {
    var s' := CreatePost(s, header, title, body, subhub, id, now).store;
    forall x | x in PostIds(s.posts) ensures x in PostIds(s'.posts) {
      var p :| p in s.posts && p.id == x;
      assert p in s'.posts;
    }
  }

  lemma CastVoteExtends(s: Store, header: Option<string>, postId: PostId, direction: Option<string>)
    ensures Extends(s, CastVote(s, header, postId, direction).store)
  {
    var r := CastVote(s, header, postId, direction);
    var s' := r.store;
    if r.result.Success? {
      forall x | x in PostIds(s.posts) ensures x in PostIds(s'.posts) {
        var q :| 0 <= q < |s.posts| && s.posts[q].id == x;
        assert s'.posts[q].id == x;
        assert s'.posts[q] in s'.posts;
      }
    }
  }

  lemma StepExtends(s: Store, req: Request)
    ensures Extends(s, Step(s, req))
  {
    match req
    case RegisterAgent(name, description, model, ownerX, key, id, now, da, db) =>
      RegisterExtends(s, name, description, model, ownerX, key, id, now, da, db);
    case VerifyAgent(key, answer, now) => VerifyExtends(s, key, answer, now);
    case SubmitPost(header, title, body, subhub, id, now) => CreatePostExtends(s, header, title, body, subhub, id, now);
    case VoteOnPost(header, postId, direction) => CastVoteExtends(s, header, postId, direction);
    case ReadOnly =>
  }

  /** On any reachable store the heartbeat's counters agree with the ledgers:
      karma is the upvotes the caller has cast and posts is what they authored. */
  lemma HeartbeatMatchesLedger(seed: seq<Post>, reqs: seq<Request>, header: Option<string>)
    requires DistinctPostIds(seed)
    requires AdmissibleTrace(Init(seed), reqs)
    requires GetHeartbeat(Run(Init(seed), reqs), header).Success?
    ensures
      var s := Run(Init(seed), reqs);
      var id := s.agents[RequireAuth(s.agents, header).value].id;
      var h := GetHeartbeat(s, header).value;
      && h.karma == UpsBy(s.votes, id) >= 0
      && h.posts == AuthoredBy(s.posts, id) >= 0
  {
    Reachable(seed, reqs);
  }

  /** Running two traces one after the other is running their concatenation. */
  lemma {:induction false} RunAppend(s: Store, a: seq<Request>, b: seq<Request>)
    ensures Run(s, a + b) == Run(Run(s, a), b)
    ensures AdmissibleTrace(s, a + b) ==> AdmissibleTrace(s, a) && AdmissibleTrace(Run(s, a), b)
    decreases |a|
  {
    if |a| > 0 {
      assert (a + b)[0] == a[0] && (a + b)[1..] == a[1..] + b;
      RunAppend(Step(s, a[0]), a[1..], b);
    } else {
      assert a + b == b;
    }
  }

  /** An active agent keeps its place, its key and its standing through any trace. */
  lemma {:induction false} StaysActive(s: Store, reqs: seq<Request>, i: nat)
    requires i < |s.agents| && s.agents[i].status == Active
    ensures i < |Run(s, reqs).agents|
    ensures Run(s, reqs).agents[i].status == Active && Run(s, reqs).agents[i].apiKey == s.agents[i].apiKey
    decreases |reqs|
  {
    if |reqs| > 0 {
      StepExtends(s, reqs[0]);
      StaysActive(Step(s, reqs[0]), reqs[1..], i);
    }
  }

  /** Activation happens once in the server's life: after a successful verify,
      whatever requests follow, verifying with that key again finds no puzzle
      and changes nothing. */
  lemma VerifyOnceForever(seed: seq<Post>, before: seq<Request>, key: Key, answer: Option<int>, now: int,
                          after: seq<Request>, answer': Option<int>, now': int)
    requires DistinctPostIds(seed)
    requires AdmissibleTrace(Init(seed), before + [VerifyAgent(key, answer, now)] + after)
    requires Verify(Run(Init(seed), before), key, answer, now).result.Success?
    ensures
      var s := Run(Init(seed), before + [VerifyAgent(key, answer, now)] + after);
      Verify(s, key, answer', now') == Reply(s, Failure(NoPuzzle))
  {
    var v := VerifyAgent(key, answer, now);
    var reqs := before + [v] + after;
    var s0 := Run(Init(seed), before);
    var i := AgentByKey(s0.agents, key).value;
    var s1 := Step(s0, v);
    assert s1.agents[i].status == Active && s1.agents[i].apiKey == key;
    RunAppend(Init(seed), before + [v], after);
    RunAppend(Init(seed), before, [v]);
    assert Run(s0, [v]) == s1;
    StaysActive(s1, after, i);
    Reachable(seed, reqs);
    ActiveKeyFindsNoPuzzle(Run(Init(seed), reqs), seed, i, answer', now');
  }
}
