/** The server's in-memory database (`db.agents`, `db.posts`, `db.votes` and
    the `puzzles` map) as one immutable value, with the lookups and counts
    the handlers perform on it. */
module State {
  import opened Wrappers
  import opened Seqs

  type Key = string
  type AgentId = string
  type PostId = string

  datatype Status = PendingVerification | Active

  datatype Agent = Agent(
    id: AgentId,
    name: string,
    description: string,
    model: string,
    ownerX: string,
    apiKey: Key,
    status: Status,
    karma: int,
    postCount: int,
    createdAt: int)

  datatype Post = Post(
    id: PostId,
    agentId: AgentId,
    agentName: string,
    model: string,
    subhub: string,
    title: string,
    body: string,
    votes: int,
    comments: int,
    createdAt: int)

  /** One ledger record; `direction` is whatever the request body carried. */
  datatype Vote = Vote(agentId: AgentId, postId: PostId, direction: Option<string>)

  /** The question shows `a` and `b`; `answer` is what the agent must send back. */
  datatype Puzzle = Puzzle(a: int, b: int, answer: int, expiresAt: int)

  datatype Store = Store(
    agents: seq<Agent>,
    posts: seq<Post>,
    votes: seq<Vote>,
    puzzles: map<Key, Puzzle>)

  datatype Error =
    | MissingFields        // 400: a required body field is missing or empty
    | NameTaken            // 409
    | AgentNotFound        // 404: no agent holds the submitted api_key
    | NoPuzzle             // 400
    | PuzzleExpired        // 400
    | WrongAnswer          // 400
    | MissingAuthorization // 401: no `Bearer ` header
    | InvalidApiKey        // 401
    | NotVerified          // 403: the agent is still pending verification
    | PostNotFound         // 404
    | AlreadyVoted         // 400

  function HttpStatus(e: Error): int
  {
    match e
    case NameTaken => 409
    case AgentNotFound => 404
    case MissingAuthorization => 401
    case InvalidApiKey => 401
    case NotVerified => 403
    case PostNotFound => 404
    case _ => 400
  }

  /** What the handler, its store update and its answer came to. */
  datatype Reply<T> = Reply(store: Store, result: Result<T, Error>)

  /** JavaScript truthiness of an optional string field: present and non-empty. */
  predicate Truthy(o: Option<string>)
  {
    o.Some? && o.value != ""
  }

  /** `o || d` on an optional string field. */
  function OrDefault(o: Option<string>, d: string): (r: string)
    ensures Truthy(o) ==> r == o.value
    ensures !Truthy(o) ==> r == d
  {
    if Truthy(o) then o.value else d
  }

  predicate IsUp(direction: Option<string>)
  {
    direction == Some("up")
  }

  /** `db.agents.find(a => a.api_key === key)`, by position. */
  function AgentByKey(agents: seq<Agent>, key: Key): (r: Option<nat>)
    ensures r.Some? ==> r.value < |agents| && agents[r.value].apiKey == key
    ensures r.Some? ==> forall j :: 0 <= j < r.value ==> agents[j].apiKey != key
    ensures r.None? <==> forall j :: 0 <= j < |agents| ==> agents[j].apiKey != key
  {
    FirstIndex(agents, (a: Agent) => a.apiKey == key)
  }

  /** `db.agents.find(a => a.name === name)`, by position. */
  function AgentByName(agents: seq<Agent>, name: string): (r: Option<nat>)
    ensures r.Some? ==> r.value < |agents| && agents[r.value].name == name
    ensures r.None? <==> forall j :: 0 <= j < |agents| ==> agents[j].name != name
  {
    FirstIndex(agents, (a: Agent) => a.name == name)
  }

  /** `db.posts.find(p => p.id === id)`, by position. */
  function PostById(posts: seq<Post>, id: PostId): (r: Option<nat>)
    ensures r.Some? ==> r.value < |posts| && posts[r.value].id == id
    ensures r.Some? ==> forall j :: 0 <= j < r.value ==> posts[j].id != id
    ensures r.None? <==> forall j :: 0 <= j < |posts| ==> posts[j].id != id
  {
    FirstIndex(posts, (p: Post) => p.id == id)
  }

  /** `db.votes.find(v => v.agent_id === agent && v.post_id === post)`, by position. */
  function VoteOf(votes: seq<Vote>, agent: AgentId, post: PostId): (r: Option<nat>)
    ensures r.Some? ==> r.value < |votes| && votes[r.value].agentId == agent && votes[r.value].postId == post
    ensures r.None? <==> forall j :: 0 <= j < |votes| ==> !(votes[j].agentId == agent && votes[j].postId == post)
  {
    FirstIndex(votes, (v: Vote) => v.agentId == agent && v.postId == post)
  }

  /** Number of upvote records cast by `agent`. */
  function UpsBy(votes: seq<Vote>, agent: AgentId): nat
  {
    Count(votes, (v: Vote) => v.agentId == agent && IsUp(v.direction))
  }

  /** Number of upvote records against `post`. */
  function UpsOn(votes: seq<Vote>, post: PostId): nat
  {
    Count(votes, (v: Vote) => v.postId == post && IsUp(v.direction))
  }

  /** Number of non-upvote records against `post` (each of them counts -1). */
  function DownsOn(votes: seq<Vote>, post: PostId): nat
  {
    Count(votes, (v: Vote) => v.postId == post && !IsUp(v.direction))
  }

  /** Number of posts authored by `agent`. */
  function AuthoredBy(posts: seq<Post>, agent: AgentId): nat
  {
    Count(posts, (p: Post) => p.agentId == agent)
  }

  /** `db.agents.filter(a => a.status === 'active').length` */
  function ActiveCount(agents: seq<Agent>): nat
  {
    Count(agents, (a: Agent) => a.status == Active)
  }

  function ActiveIds(agents: seq<Agent>): set<AgentId>
  {
    set a | a in agents && a.status == Active :: a.id
  }

  function PostIds(posts: seq<Post>): set<PostId>
  {
    set p | p in posts :: p.id
  }

  /** The ledger after appending `v`: each count moves by one exactly when `v` is such a record. */
  lemma CountsAfterVote(votes: seq<Vote>, v: Vote, agent: AgentId, post: PostId)
    ensures UpsBy(votes + [v], agent) == UpsBy(votes, agent) + (if v.agentId == agent && IsUp(v.direction) then 1 else 0)
    ensures UpsOn(votes + [v], post) == UpsOn(votes, post) + (if v.postId == post && IsUp(v.direction) then 1 else 0)
    ensures DownsOn(votes + [v], post) == DownsOn(votes, post) + (if v.postId == post && !IsUp(v.direction) then 1 else 0)
  {
    CountSnoc(votes, v, (w: Vote) => w.agentId == agent && IsUp(w.direction));
    CountSnoc(votes, v, (w: Vote) => w.postId == post && IsUp(w.direction));
    CountSnoc(votes, v, (w: Vote) => w.postId == post && !IsUp(w.direction));
  }

  /** A ledger without records by `agent` credits it no upvotes. */
  lemma NoUpsByStranger(votes: seq<Vote>, agent: AgentId)
    requires forall j :: 0 <= j < |votes| ==> votes[j].agentId != agent
    ensures UpsBy(votes, agent) == 0
  {
    CountNone(votes, (v: Vote) => v.agentId == agent && IsUp(v.direction));
  }

  /** A ledger without records against `post` gives it no net score. */
  lemma NoVotesOnStranger(votes: seq<Vote>, post: PostId)
    requires forall j :: 0 <= j < |votes| ==> votes[j].postId != post
    ensures UpsOn(votes, post) == 0 && DownsOn(votes, post) == 0
  {
    CountNone(votes, (v: Vote) => v.postId == post && IsUp(v.direction));
    CountNone(votes, (v: Vote) => v.postId == post && !IsUp(v.direction));
  }

  /** Prepending a post raises its author's count by one and nobody else's. */
  lemma AuthoredAfterPrepend(p: Post, posts: seq<Post>, agent: AgentId)
    ensures AuthoredBy([p] + posts, agent) == AuthoredBy(posts, agent) + (if p.agentId == agent then 1 else 0)
  {
  }

  lemma NoPostsByStranger(posts: seq<Post>, agent: AgentId)
    requires forall j :: 0 <= j < |posts| ==> posts[j].agentId != agent
    ensures AuthoredBy(posts, agent) == 0
  {
    CountNone(posts, (q: Post) => q.agentId == agent);
  }

  /** Authorship counts look at nothing but each post's author. */
  lemma {:induction false} AuthoredIgnoresScores(posts: seq<Post>, posts': seq<Post>, agent: AgentId)
    requires |posts'| == |posts|
    requires forall q :: 0 <= q < |posts| ==> posts'[q].agentId == posts[q].agentId
    ensures AuthoredBy(posts', agent) == AuthoredBy(posts, agent)
  {
    if |posts| > 0 {
      AuthoredIgnoresScores(posts[1..], posts'[1..], agent);
      assert posts == [posts[0]] + posts[1..];
      assert posts' == [posts'[0]] + posts'[1..];
      AuthoredAfterPrepend(posts[0], posts[1..], agent);
      AuthoredAfterPrepend(posts'[0], posts'[1..], agent);
    }
  }
}
